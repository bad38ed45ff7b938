/** Ordered live delivery: a polled body that hashes each chunk before releasing it, and completes only after
    a clean end, the declared length and every required digest. */
module Delivery {
  import opened Common
  import opened PayloadChecks

  /** What polling the source gives; a script that is used up gives end of stream. */
  datatype SourcePoll = Later | Chunk(bytes: seq<byte>) | Broken

  datatype Progress = Progress(received: nat, released: nat, hashed: nat)

  datatype State = Reading | Complete(outcome: Outcome) | Failed

  datatype BodyError = SourceFailed | WrongLength(expected: nat, received: nat)
    | Overflow | DigestMismatch(mismatch: Mismatch)

  datatype Poll = Pending | Item(bytes: seq<byte>) | Error(error: BodyError, progress: Progress) | End

  datatype FinishError = Incomplete(progress: Progress) | FailedBefore(progress: Progress)

  const HASH_SLICE: nat := 64 * 1024

  // ----- one poll, on values

  /** The fields of a body; `fed` is what the hashers have taken, gone once they are finished or dropped. */
  datatype Body = Body(
    policy: Policy, hash: Hash, length: Option<nat>,
    source: seq<SourcePoll>, fed: Option<seq<byte>>, pending: Option<seq<byte>>, offset: nat,
    progress: Progress, state: State, yielding: bool)
  {
    predicate Active() { exists i :: 0 <= i < 5 && policy.Requests(ALL[i]) }

    predicate Valid() {
      && InOrder(policy.requirements)
      && (state == Reading ==> fed.Some?)
      && (pending.Some? ==> offset < |pending.value|)
    }
  }

  function Start(policy: Policy, hash: Hash, length: Option<nat>, source: seq<SourcePoll>): Body
  {
    Body(policy, hash, length, source, Some([]), None, 0, Progress(0, 0, 0), Reading, false)
  }

  function Fail(b: Body, error: BodyError): (Body, Poll)
  {
    (b.(state := Failed, pending := None, fed := None), Error(error, b.progress))
  }

  /** Hash one slice of the pending chunk, or release it. */
  function Release(b: Body): (Body, Poll)
    requires b.Valid() && b.state == Reading && b.pending.Some?
  {
    var chunk := b.pending.value;
    var end := if b.Active() then b.offset + Min(|chunk| - b.offset, HASH_SLICE) else b.offset;
    var h := if b.Active()
             then b.(fed := Some(b.fed.value + chunk[b.offset..end]),
                     progress := b.progress.(hashed := b.progress.hashed + (end - b.offset)), offset := end)
             else b;
    if b.Active() && end != |chunk| then (h, Pending)
    else (h.(progress := h.progress.(released := h.progress.received), yielding := true, pending := None), Item(chunk))
  }

  function Admit(b: Body, chunk: seq<byte>): (Body, Poll)
    requires b.Valid() && b.state == Reading && b.pending == None
  {
    var received := b.progress.received + |chunk|;
    if received > U64_MAX then Fail(b, Overflow)
    else
      var c := b.(progress := b.progress.(received := received));
      if c.length.Some? && received > c.length.value then Fail(c, WrongLength(c.length.value, received))
      else if chunk == [] then (c, Pending)
      else Release(c.(pending := Some(chunk), offset := 0))
  }

  function Conclude(b: Body): (Body, Poll)
    requires b.Valid() && b.state == Reading
  {
    if b.length.Some? && b.progress.received != b.length.value
    then Fail(b, WrongLength(b.length.value, b.progress.received))
    else if forall i :: 0 <= i < 5 ==> Agrees(b.policy, b.hash, b.fed.value, i)
    then (b.(fed := None, state := Complete(ResultsOf(b.policy, b.hash, b.fed.value))), End)
    else Fail(b, DigestMismatch(FirstMismatch(b.policy, b.hash, b.fed.value)))
  }

  function FirstMismatch(policy: Policy, hash: Hash, payload: seq<byte>): (m: Mismatch)
    requires exists i :: 0 <= i < 5 && !Agrees(policy, hash, payload, i)
    ensures var i := m.actual.algorithm.Index();
            && policy.requirements[i] == Some(m.requirement) && m.actual == DigestOf(hash, ALL[i], payload)
            && !Agrees(policy, hash, payload, i) && forall k :: 0 <= k < i ==> Agrees(policy, hash, payload, k)
  {
    var i := if !Agrees(policy, hash, payload, 0) then 0
             else if !Agrees(policy, hash, payload, 1) then 1
             else if !Agrees(policy, hash, payload, 2) then 2
             else if !Agrees(policy, hash, payload, 3) then 3 else 4;
    Mismatch(policy.requirements[i].value, DigestOf(hash, ALL[i], payload), ResultsOf(policy, hash, payload))
  }

  /** `CheckedBody::poll_next`, branch by branch. */
  function PollOf(b: Body): (Body, Poll)
    requires b.Valid()
  {
    if b.state != Reading then (b, End)
    else if b.yielding then (b.(yielding := false), Pending)
    else if b.pending.Some? then Release(b)
    else if b.source == [] then Conclude(b)
    else
      var c := b.(source := b.source[1..]);
      match b.source[0]
      case Later => (c, Pending)
      case Broken => Fail(c, SourceFailed)
      case Chunk(bytes) => Admit(c, bytes)
  }

  // ----- the body as an object

  class CheckedBody {
    const policy: Policy
    const hash: Hash
    const length: Option<nat>
    var source: seq<SourcePoll>
    var checks: Checks?
    var pending: Option<seq<byte>>
    var offset: nat
    var progress: Progress
    var state: State
    var yielding: bool
    ghost var fed: seq<byte>

    ghost predicate Valid()
      reads this, checks
    {
      && InOrder(policy.requirements)
      && (checks != null ==> checks.policy == policy && checks.hash == hash && checks.hashers == Fed(policy, fed))
      && (state == Reading ==> checks != null)
      && (pending.Some? ==> offset < |pending.value|)
    }

    ghost function View(): Body
      reads this
    {
      Body(policy, hash, length, source, if checks == null then None else Some(fed),
           pending, offset, progress, state, yielding)
    }

    /** Freezes the policy; no bytes are acquired. */
    constructor (policy: Policy, hash: Hash, length: Option<nat>, source: seq<SourcePoll>)
      requires InOrder(policy.requirements)
      ensures Valid() && View() == Start(policy, hash, length, source) && fresh(checks)
    {
      this.policy, this.hash, this.length, this.source := policy, hash, length, source;
      var c := new Checks(hash, policy);
      checks := c;
      pending, offset, progress, state, yielding := None, 0, Progress(0, 0, 0), Reading, false;
      fed := [];
    }

    /** `fail`. */
    method Abort(error: BodyError) returns (r: Poll)
      requires Valid()
      modifies this
      ensures Valid() && (View(), r) == Fail(old(View()), error)
      ensures checks == null
    {
      state, pending, checks := Failed, None, null;
      r := Error(error, progress);
    }

    lemma ActiveIsRequested()
      requires Valid() && checks != null
      ensures checks.Active() <==> View().Active()
    {
      assert forall i :: 0 <= i < 5 ==> (checks.hashers[i].Some? <==> policy.Requests(ALL[i]));
    }

    /** The tail of `poll_next`: hash a slice, then release. */
    method ReleasePending() returns (r: Poll)
      requires Valid() && state == Reading && pending.Some?
      modifies this, checks
      ensures Valid() && (View(), r) == Release(old(View())) && checks == old(checks)
    {
      ActiveIsRequested();
      var chunk := pending.value;
      if checks.Active() {
        var end := offset + Min(|chunk| - offset, HASH_SLICE);
        checks.Update(chunk[offset..end], fed);
        fed := fed + chunk[offset..end];
        progress := progress.(hashed := progress.hashed + (end - offset));
        offset := end;
        if end != |chunk| {
          return Pending;
        }
      }
      progress := progress.(released := progress.received);
      yielding := true;
      pending := None;
      r := Item(chunk);
    }

    /** `poll_next`. */
    method PollNext() returns (r: Poll)
      requires Valid()
      modifies this, checks
      ensures Valid() && (View(), r) == PollOf(old(View()))
      ensures checks == old(checks) || checks == null
    {
      if state != Reading {
        return End;
      }
      if yielding {
        yielding := false;
        return Pending;
      }
      if pending == None {
        if source == [] {
          r := Finishing();
          return;
        }
        var next := source[0];
        source := source[1..];
        match next {
          case Later => return Pending;
          case Broken =>
            r := Abort(SourceFailed);
            return;
          case Chunk(chunk) =>
            var received := progress.received + |chunk|;
            if received > U64_MAX {
              r := Abort(Overflow);
              return;
            }
            progress := progress.(received := received);
            if length.Some? && received > length.value {
              r := Abort(WrongLength(length.value, progress.received));
              return;
            }
            if chunk == [] {
              return Pending;
            }
            pending := Some(chunk);
            offset := 0;
        }
      }
      r := ReleasePending();
    }

    /** `finish`: a receipt only for a complete body. */
    method Finish() returns (r: Result<(Progress, Outcome), FinishError>)
      ensures r.Ok? <==> state.Complete?
      ensures r.Ok? ==> r.value == (progress, state.outcome)
      ensures r.Err? ==> r.error == if state == Reading then Incomplete(progress) else FailedBefore(progress)
    {
      match state {
        case Complete(outcome) => r := Ok((progress, outcome));
        case Reading => r := Err(Incomplete(progress));
        case Failed => r := Err(FailedBefore(progress));
      }
    }

    /** End of source: the length, then every check. */
    method Finishing() returns (r: Poll)
      requires Valid() && state == Reading
      modifies this, checks
      ensures Valid() && (View(), r) == Conclude(old(View())) && checks == null
    {
      if length.Some? && progress.received != length.value {
        r := Abort(WrongLength(length.value, progress.received));
        return;
      }
      var finished := checks.Finish(fed);
      match finished {
        case Ok(outcome) =>
          checks := null;
          state := Complete(outcome);
          r := End;
        case Err(mismatch) =>
          OneFirstMismatch(policy, hash, fed, mismatch, FirstMismatch(policy, hash, fed));
          r := Abort(DigestMismatch(mismatch));
      }
    }
  }

  lemma OneFirstMismatch(policy: Policy, hash: Hash, payload: seq<byte>, m: Mismatch, n: Mismatch)
    requires m.results == n.results
    requires forall x | x in {m, n} ::
               var i := x.actual.algorithm.Index();
               && policy.requirements[i] == Some(x.requirement) && x.actual == DigestOf(hash, ALL[i], payload)
               && !Agrees(policy, hash, payload, i) && forall k :: 0 <= k < i ==> Agrees(policy, hash, payload, k)
    ensures m == n
  {
    assert m in {m, n} && n in {m, n};
    var i, j := m.actual.algorithm.Index(), n.actual.algorithm.Index();
    assert !(i < j) && !(j < i);
  }
}
