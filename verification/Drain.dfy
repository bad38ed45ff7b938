/** Draining a body into a writer: what the writer is given, whatever it does. */
module Draining {
  import opened Common
  import opened PayloadChecks
  import opened Delivery
  import opened DeliveryLaws

  /** How the writer answers one write of a nonempty slice. A broken writer may claim any count. */
  datatype Answer = Wrote(count: nat) | WriteFailed

  datatype DrainError = FromBody(error: BodyError) | WriteError | WriteZero | InvalidWriteCount | FlushError

  datatype Drained =
    | Receipt(progress: Progress, outcome: Outcome, accepted: nat)
    | Failure(error: DrainError, progress: Progress, accepted: nat)

  /** A writer: how it answers its `k`-th write, of `n` bytes; the bytes it has taken; whether it has been flushed. */
  class Writer {
    const answers: (nat, nat) -> Answer
    const flushes: bool
    var asked: nat
    var taken: seq<byte>
    var flushed: bool

    constructor (answers: (nat, nat) -> Answer, flushes: bool)
      ensures this.answers == answers && this.flushes == flushes && asked == 0 && taken == [] && !flushed
    {
      this.answers, this.flushes, asked, taken, flushed := answers, flushes, 0, [], false;
    }

    method Write(slice: seq<byte>) returns (answer: Answer)
      modifies this
      ensures answer == answers(old(asked), |slice|) && asked == old(asked) + 1 && flushed == old(flushed)
      ensures taken == old(taken) + if answer.Wrote? && answer.count <= |slice| then slice[..answer.count] else []
    {
      answer := answers(asked, |slice|);
      asked := asked + 1;
      if answer.Wrote? && answer.count <= |slice| {
        taken := taken + slice[..answer.count];
      }
    }

    method Flush() returns (ok: bool)
      modifies this
      ensures ok == flushes && flushed && taken == old(taken) && asked == old(asked)
    {
      flushed := true;
      ok := flushes;
    }
  }

  /** The writer never fails, and takes something of what it is offered and no more. */
  ghost predicate Behaves(answers: (nat, nat) -> Answer)
  {
    forall k, n :: 0 < n ==> answers(k, n).Wrote? && 0 < answers(k, n).count <= n
  }

  /** What is left of `n` bytes after `m` writes from the `k`-th on, when each has taken something and no more. */
  function LeftAfter(answers: (nat, nat) -> Answer, k: nat, n: nat, m: nat): Option<nat>
  {
    if m == 0 then Some(n)
    else
      match LeftAfter(answers, k, n, m - 1)
      case None => None
      case Some(left) =>
        var answer := answers(k + m - 1, left);
        if answer.Wrote? && 0 < answer.count <= left then Some(left - answer.count) else None
  }

  /** What an answer to a write of `left` bytes is called when it is not one to go on from. */
  ghost predicate Explains(error: DrainError, answer: Answer, left: nat)
  {
    match error
    case WriteError => answer == WriteFailed
    case WriteZero => answer == Wrote(0)
    case InvalidWriteCount => answer.Wrote? && left < answer.count
    case _ => false
  }

  lemma BehavingGoesOn(answers: (nat, nat) -> Answer, k: nat, left: nat, error: DrainError)
    requires Explains(error, answers(k, left), left) && 0 < left
    ensures !Behaves(answers)
  {
    assert !(answers(k, left).Wrote? && 0 < answers(k, left).count <= left);
  }

  /** The inner loop of `drain`: one released chunk, in as many writes as the writer likes. It ends with the chunk,
      or at the first answer it cannot go on from. */
  method WriteChunk(chunk: seq<byte>, writer: Writer) returns (accepted: nat, error: Option<DrainError>)
    modifies writer
    ensures accepted <= |chunk| && writer.taken == old(writer.taken) + chunk[..accepted]
    ensures writer.flushed == old(writer.flushed) && writer.asked >= old(writer.asked)
    ensures error == None <==> accepted == |chunk|
    ensures error == None ==>
              LeftAfter(writer.answers, old(writer.asked), |chunk|, writer.asked - old(writer.asked)) == Some(0)
    ensures error.Some? ==>
              && error.value in {WriteError, WriteZero, InvalidWriteCount} && writer.asked > old(writer.asked)
              && LeftAfter(writer.answers, old(writer.asked), |chunk|, writer.asked - old(writer.asked) - 1)
                 == Some(|chunk| - accepted)
              && Explains(error.value, writer.answers(writer.asked - 1, |chunk| - accepted), |chunk| - accepted)
    ensures Behaves(writer.answers) ==> error == None
  {
    hide Behaves;
    accepted := 0;
    while accepted < |chunk|
      invariant accepted <= |chunk| && writer.taken == old(writer.taken) + chunk[..accepted]
      invariant writer.flushed == old(writer.flushed) && writer.asked >= old(writer.asked)
      invariant LeftAfter(writer.answers, old(writer.asked), |chunk|, writer.asked - old(writer.asked))
             == Some(|chunk| - accepted)
    {
      var answer := writer.Write(chunk[accepted..]);
      match answer {
        case WriteFailed =>
          BehavingGoesOn(writer.answers, writer.asked - 1, |chunk| - accepted, WriteError);
          return accepted, Some(WriteError);
        case Wrote(count) =>
          if count == 0 {
            assert chunk[accepted..][..0] == [];
            BehavingGoesOn(writer.answers, writer.asked - 1, |chunk| - accepted, WriteZero);
            return accepted, Some(WriteZero);
          }
          if count > |chunk| - accepted {
            BehavingGoesOn(writer.answers, writer.asked - 1, |chunk| - accepted, InvalidWriteCount);
            return accepted, Some(InvalidWriteCount);
          }
          assert chunk[..accepted] + chunk[accepted..][..count] == chunk[..accepted + count];
          accepted := accepted + count;
      }
    }
    error := None;
  }

  /** The body stands where `n` polls of its start would leave it, still reading, with `out` released. */
  ghost predicate At(body: CheckedBody, source: seq<SourcePoll>, n: nat, out: seq<byte>)
    reads body, body.checks
    requires InOrder(body.policy.requirements)
  {
    var start := Start(body.policy, body.hash, body.length, source);
    body.Valid() && body.View() == After(start, n) && out == Released(start, n)
  }

  /** What the released counter and the turn say after any number of polls. */
  lemma Standing(policy: Policy, hash: Hash, length: Option<nat>, source: seq<SourcePoll>, n: nat)
    requires InOrder(policy.requirements)
    ensures var start := Start(policy, hash, length, source);
            Ready(After(start, n)) && After(start, n).progress.released == |Released(start, n)|
  {
    hide PollOf, InOrder, After, Released;
    var taken, whole := ReachableBody(policy, hash, length, source, n);
    ReadyAfter(Start(policy, hash, length, source), n);
  }

  lemma {:induction false} ReadyAfter(b: Body, n: nat)
    requires Ready(b)
    ensures Ready(After(b, n))
  {
    hide PollOf;
    if n > 0 {
      ReadyAfter(b, n - 1);
      var c := After(b, n - 1);
      if c.state == Reading { PollsCountDown(c); } else { TerminalPoll(c); }
    }
  }

  /** One more poll of a body that is reading. */
  lemma OneMore(b: Body, n: nat)
    requires b.Valid()
    ensures After(b, n + 1) == PollOf(After(b, n)).0
    ensures Released(b, n + 1) == Released(b, n) + ItemOf(PollOf(After(b, n)).1)
  {
    hide PollOf;
  }

  lemma ReadingUntilItsEnd(b: Body)
    requires Ready(b) && b.state == Reading
    ensures var (c, p) := PollOf(b);
            && PollsLeft(c) < PollsLeft(b)
            && (p.Pending? || p.Item? ==> c.state == Reading)
            && (p.End? ==> c.state.Complete?) && (p.Error? ==> c.state == Failed && p.progress == c.progress)
  {
    hide InOrder, Agrees, ResultsOf, FirstMismatch;
    PollsCountDown(b);
  }

  /** `CheckedBody::drain`. The writer ends up with exactly the first `accepted` released bytes; on success that
      is the whole payload, and only after a complete body is it flushed. */
  method Drain(body: CheckedBody, writer: Writer, ghost source: seq<SourcePoll>)
    returns (r: Drained, ghost out: seq<byte>, ghost polls: nat)
    requires body.Valid() && body.View() == Start(body.policy, body.hash, body.length, source)
    requires writer.taken == [] && !writer.flushed
    modifies body, body.checks, writer
    ensures InOrder(body.policy.requirements)
    ensures out == Released(Start(body.policy, body.hash, body.length, source), polls)
    ensures r.progress.released == |out|
    ensures r.accepted <= |out| && writer.taken == out[..r.accepted]
    ensures r.Receipt? ==> && out == Payload(source) && r.accepted == |out| && r.progress.received == |out|
                           && body.policy.SatisfiedBy(r.outcome) && writer.flushes
    ensures writer.flushed ==> body.state.Complete? && out == Payload(source)
    ensures r.Receipt? || (r.Failure? && r.error == FlushError) <==> writer.flushed
    ensures r.Failure? && r.error.FromBody? ==> r.accepted == |out|
    ensures Ready(Start(body.policy, body.hash, body.length, source))
    ensures var last := Drive(Start(body.policy, body.hash, body.length, source)).last;
            && (r.Receipt? || (r.Failure? && r.error == FlushError) ==> last.End?)
            && (r.Failure? && r.error.FromBody? ==> last == Error(r.error.error, r.progress))
            && (Behaves(writer.answers) && writer.flushes && last.End? ==> r.Receipt?)
    ensures r.Failure? && !r.error.FromBody? && r.error != FlushError ==>
              && r.accepted < |out| && writer.asked > old(writer.asked)
              && Explains(r.error, writer.answers(writer.asked - 1, |out| - r.accepted), |out| - r.accepted)
    ensures r.Failure? && r.error == FlushError ==> !writer.flushes
  {
    hide PollOf, After, Released, InOrder, Drive, Explains, Behaves;
    ghost var start := body.View();
    var accepted := 0;
    out, polls := [], 0;
    AtStart(body, source);
    while true
      invariant At(body, source, polls, out) && body.state == Reading
      invariant accepted == |out| && writer.taken == out && !writer.flushed && writer.asked >= old(writer.asked)
      invariant Ready(body.View()) && Drive(start).last == Drive(body.View()).last
      invariant body.checks == old(body.checks) || body.checks == null
      decreases PollsLeft(body.View())
    {
      Standing(body.policy, body.hash, body.length, source, polls);
      Standing(body.policy, body.hash, body.length, source, polls + 1);
      ReadingUntilItsEnd(body.View());
      DriveStep(body.View());
      OneMore(start, polls);
      var next := body.PollNext();
      polls := polls + 1;
      out := out + ItemOf(next);
      match next {
        case Pending =>
          assert out[..|out|] == out;
        case Error(error, _) =>
          assert out[..|out|] == out;
          r := Failure(FromBody(error), body.progress, accepted);
          return;
        case End =>
          break;
        case Item(chunk) =>
          var count, error := WriteChunk(chunk, writer);
          accepted := accepted + count;
          if error.Some? {
            assert out[..accepted] == out[..|out| - |chunk|] + chunk[..count];
            r := Failure(error.value, body.progress, accepted);
            return;
          }
          assert chunk[..count] == chunk;
      }
    }
    assert out[..|out|] == out;
    CompletionIsEarned(body.policy, body.hash, body.length, source, polls);
    var receipt := body.Finish();
    var flushed := writer.Flush();
    if !flushed {
      r := Failure(FlushError, body.progress, accepted);
      return;
    }
    r := Receipt(receipt.value.0, receipt.value.1, accepted);
  }

  lemma AtStart(body: CheckedBody, source: seq<SourcePoll>)
    requires body.Valid() && body.View() == Start(body.policy, body.hash, body.length, source)
    ensures At(body, source, 0, []) && Ready(body.View())
  {}
}
