/** The download's own loops over mutable state, each proved to be a run of the step system. */
module Scatter {
  import opened Common
  import opened Text
  import opened Plan
  import opened ControlFile
  import opened Engine
  import opened EngineLaws

  /** What a stream gives: a piece of the resource, or a fault. Its end is the end of the script. */
  datatype Piece = Piece(n: nat) | Fault

  /** What one read of the file gives. Its end is never met, so a read gives at least a byte or fails. */
  datatype Reading = Got(n: nat) | ReadFailed

  /** The size of the buffer a chunk's append writes. */
  function AppendSize(s: Run, i: nat): nat
    requires i < |s.fetchers| && i < |s.ranges|
  {
    |Stamped(s.Total(), s.Trailer(), Encode(DoneLine(s.AppendRange(i))))|
  }

  // ----- what a stream does to a chunk

  /** What a chunk has between two pieces: how far it is recorded, its last checkpoint, and the trailer's text. */
  datatype Mark = Mark(offset: nat, checkpointed: nat, text: string)

  /** A chunk's range, the size of the file's data, and where nothing varies with the chunk's progress. */
  datatype Place = Place(range: ByteRange, total: nat)

  predicate IsDue(m: Mark, due: bool)
  {
    m.offset - m.checkpointed >= CHECKPOINT_BYTES || (m.offset - m.checkpointed > 0 && due)
  }

  function LineSize(range: ByteRange): nat { |Encode(DoneLine(range))| + FOOTER }

  /** An append of `range` after `text` succeeds. */
  predicate Goes(total: nat, text: string, range: ByteRange, fate: Fate)
  {
    fate.IsSmooth(LineSize(range)) && total + |Encode(text)| + LineSize(range) <= MAX_FILE
  }

  /** The chunk after a checkpoint, and whether it went well. */
  function AfterCheckpoint(at: Place, m: Mark, fate: Fate): (r: (Mark, bool))
    ensures r.0.offset == m.offset
  {
    var range := if m.offset <= U64_MAX then ByteRange(at.range.start, m.offset) else at.range;
    if Goes(at.total, m.text, range, fate) then (Mark(m.offset, m.offset, m.text + DoneLine(range)), true)
    else (m.(text := if fate.Stays(LineSize(range)) then m.text else m.text + DoneLine(range)), false)
  }

  /** The chunk after one more piece, and whether the checkpoint that may have fallen due went well. */
  function AfterPiece(at: Place, m: Mark, n: nat, due: bool, fate: Fate): (Mark, bool)
  {
    var next := m.(offset := m.offset + n);
    if IsDue(next, due) then AfterCheckpoint(at, next, fate) else (next, true)
  }

  /** The chunk after the pieces from the `k`-th on, and whether the stream ended well. */
  function AfterStream(at: Place, m: Mark, stream: seq<Piece>, due: nat -> bool, fates: nat -> Fate, k: nat)
    : (Mark, bool)
    decreases |stream| - k
  {
    if k >= |stream| then (m, true)
    else if stream[k].Fault? || stream[k].n > at.range.end - m.offset then (m, false)
    else
      var (next, ok) := AfterPiece(at, m, stream[k].n, due(k), fates(k));
      if ok then AfterStream(at, next, stream, due, fates, k + 1) else (next, false)
  }

  /** The chunk after its attempts from the `a`-th on. */
  function AfterAttempts(at: Place, m: Mark, streams: nat -> seq<Piece>, due: nat -> nat -> bool,
                         fates: nat -> nat -> Fate, retries: nat, a: nat): Mark
    decreases retries + 1 - a
  {
    if a > retries || m.offset >= at.range.end then m
    else AfterAttempts(at, AfterStream(at, m, streams(a), due(a), fates(a), 0).0, streams, due, fates, retries, a + 1)
  }

  lemma AttemptsStep(at: Place, m: Mark, streams: nat -> seq<Piece>, due: nat -> nat -> bool, fates: nat -> nat -> Fate,
                  retries: nat, a: nat)
    ensures AfterAttempts(at, m, streams, due, fates, retries, a)
         == if a > retries || m.offset >= at.range.end then m
            else AfterAttempts(at, AfterStream(at, m, streams(a), due(a), fates(a), 0).0, streams, due, fates,
                               retries, a + 1)
  {}

  class Download {
    const resource: seq<byte>
    const ranges: seq<ByteRange>
    const credit: seq<nat>
    const resumed: bool
    const retries: nat
    var file: seq<byte>
    var text: string
    ghost var footing: Footing
    var append: Append
    var fetchers: seq<Fetcher>
    var received: seq<nat>
    var permit: bool
    var failed: bool
    var driven: bool
    var verifier: Verifier
    var hashed: seq<byte>

    ghost function View(): Run
      reads this
    {
      Run(resource, ranges, credit, resumed, retries, file, text, footing, append, fetchers, received,
          permit, failed, driven, verifier, hashed)
    }

    constructor (start: Run)
      ensures View() == start
    {
      resource, ranges, credit, resumed, retries
        := start.resource, start.ranges, start.credit, start.resumed, start.retries;
      file, text, footing, append := start.file, start.text, start.footing, start.append;
      fetchers, received := start.fetchers, start.received;
      permit, failed, driven, verifier, hashed
        := start.permit, start.failed, start.driven, start.verifier, start.hashed;
    }

    // ----- a fetcher's sections

    method Connect(i: nat)
      requires Enabled(View(), Step.Connect(i))
      modifies this
      ensures View() == Apply(old(View()), Step.Connect(i))
    {
      var f := fetchers[i];
      fetchers := fetchers[i := f.(phase := Streaming, written := 0, attempt := f.attempt + 1)];
    }

    /** `write_all` and `flush` of one piece. */
    method Put(i: nat, n: nat)
      requires Enabled(View(), Step.Put(i, n))
      modifies this
      ensures View() == Apply(old(View()), Step.Put(i, n))
    {
      hide Overlay, Encode, Stamped, DoneLine, ContiguousRun;
      var f := fetchers[i];
      var at := f.offset + f.written;
      file := Overlay(file, at, resource[at..at + n]);
      fetchers := fetchers[i := f.(written := f.written + n)];
    }

    /** The piece is recorded and the verifier nudged; the result says whether a checkpoint is due. */
    method Record(i: nat, due: bool) returns (checkpoint: bool)
      requires Enabled(View(), Step.Record(i, due))
      modifies this
      ensures View() == Apply(old(View()), Step.Record(i, due))
      ensures checkpoint == (fetchers[i].phase == Checkpointing) && fetchers[i].phase in {Checkpointing, Streaming}
    {
      hide Overlay, Encode, Stamped, DoneLine, ContiguousRun;
      var f := fetchers[i];
      var offset := f.offset + f.written;
      received := received[i := if ranges[i].start <= offset then offset - ranges[i].start else 0];
      permit := true;
      var progressed := offset - f.checkpointed;
      checkpoint := progressed >= CHECKPOINT_BYTES || (progressed > 0 && due);
      fetchers := fetchers[i := f.(offset := offset, written := 0,
                                   phase := if checkpoint then Checkpointing else Streaming)];
    }

    method Break(i: nat)
      requires Enabled(View(), Step.Break(i))
      modifies this
      ensures View() == Apply(old(View()), Step.Break(i))
    {
      fetchers := fetchers[i := fetchers[i].(phase := Trying, written := 0)];
    }

    method Reach(i: nat)
      requires Enabled(View(), Step.Reach(i))
      modifies this
      ensures View() == Apply(old(View()), Step.Reach(i))
    {
      fetchers := fetchers[i := fetchers[i].(phase := Closing)];
    }

    method Lock(i: nat)
      requires Enabled(View(), Step.Lock(i))
      modifies this
      ensures View() == Apply(old(View()), Step.Lock(i))
    {
      var f := fetchers[i];
      var range := if f.phase == Checkpointing && ranges[i].start <= f.offset <= U64_MAX
                   then ByteRange(ranges[i].start, f.offset) else ranges[i];
      append := Appending(i, range, 0, file[|resource|..]);
    }

    method PutControl(n: nat)
      requires Enabled(View(), Step.PutControl(n))
      modifies this
      ensures View() == Apply(old(View()), Step.PutControl(n))
    {
      hide Stamped, Encode, Overlay, DoneLine;
      var trailer, k := |Encode(text)|, append.reached;
      var buffer := Stamped(|resource|, trailer, Encode(DoneLine(append.range)));
      file := Overlay(file, |resource| + trailer + k, buffer[k..k + n]);
      append := append.(reached := k + n);
    }

    method Unlock()
      requires Enabled(View(), Step.Unlock)
      modifies this
      ensures View() == Apply(old(View()), Step.Unlock)
    {
      var i := append.owner;
      var f := fetchers[i];
      LetGo(true);
      fetchers := fetchers[i := if f.phase == Closing then f.(phase := Finished)
                                else f.(phase := Streaming, checkpointed := f.offset)];
    }

    method FailControl(moves: bool)
      requires Enabled(View(), Step.FailControl(moves))
      modifies this
      ensures View() == Apply(old(View()), Step.FailControl(moves))
    {
      var i := append.owner;
      LetGo(moves);
      fetchers := fetchers[i := fetchers[i].(phase := Trying, written := 0)];
    }

    /** The lock is let go by a writer that has moved past its line, or stays. */
    method LetGo(moves: bool)
      requires append.Appending?
      modifies this
      ensures View() == old(View()).(text := old(View()).TextAfter(moves), footing := old(View()).FootingAfter(moves),
                                     append := Unlocked)
    {
      hide Stamped, Encode, DoneLine;
      footing := View().FootingAfter(moves);
      if moves {
        text := text + DoneLine(append.range);
      }
      append := Unlocked;
    }

    ghost function MarkOf(i: nat): Mark
      requires i < |fetchers|
      reads this
    {
      Mark(fetchers[i].offset, fetchers[i].checkpointed, text)
    }

    ghost function PlaceOf(i: nat): Place
      requires i < |ranges|
      reads this
    {
      Place(ranges[i], |resource|)
    }

    /** `Writer::append` under the lock, uninterrupted: it fails as its fate says, or when the file would grow too
        large, which only the flush reports. */
    method AppendRange(i: nat, fate: Fate) returns (ok: bool, ghost steps: seq<Step>)
      requires FlowInv(View()) && Enabled(View(), Step.Lock(i))
      modifies this
      ensures RunsTo(old(View()), steps, View())
      ensures var size := AppendSize(old(View()), i);
              ok <==> fate.IsSmooth(size) && |resource| + |Encode(old(text))| + size <= MAX_FILE
      ensures ok ==> After(old(View()), View(), i)
      ensures !ok ==> var moves := !fate.Stays(AppendSize(old(View()), i));
                      if old(fetchers[i].phase) == Checkpointing then GivenBack(old(View()), View(), i, moves)
                      else Enabled(View(), Step.GiveUp(i))
    {
      hide Enabled, Apply, RunsTo, Stamped, Encode, DoneLine, FlowInv, After, GivenBack;
      ghost var s0 := View();
      OneStep(s0, Step.Lock(i));
      Lock(i);
      ghost var s1 := View();
      steps := [Step.Lock(i)];
      LockedFacts(s0, i);
      var place := |resource| + |Encode(text)|;
      var size := |Stamped(|resource|, |Encode(text)|, Encode(DoneLine(append.range)))|;
      var reach := Min(fate.Reached(size), Max(0, MAX_FILE - place));
      if reach > 0 {
        PutFacts(s0, s1, i, reach);
        OneStep(s1, Step.PutControl(reach));
        PutControl(reach);
        RunsOn(s0, steps, s1, [Step.PutControl(reach)], View());
        steps := steps + [Step.PutControl(reach)];
      }
      ghost var s2 := View();
      ok := fate.IsSmooth(size) && reach == size;
      if ok {
        UnlockFacts(s0, s2, i);
        OneStep(s2, Step.Unlock);
        Unlock();
        RunsOn(s0, steps, s2, [Step.Unlock], View());
        steps := steps + [Step.Unlock];
      } else {
        var moves := !fate.Stays(size);
        FailFacts(s0, s2, i, moves);
        if fetchers[i].phase == Checkpointing {
          OneStep(s2, Step.FailControl(moves));
          FailControl(moves);
          RunsOn(s0, steps, s2, [Step.FailControl(moves)], View());
          steps := steps + [Step.FailControl(moves)];
        }
      }
    }

    /** The chunk is streaming with nothing unrecorded and the lock free. */
    ghost predicate Filling(i: nat)
      reads this
    {
      && FlowInv(View()) && Live(View(), i) && append == Unlocked
      && fetchers[i].phase == Streaming && fetchers[i].written == 0
    }

    /** The chunk is at the top of its attempt loop, with the lock free. */
    ghost predicate Retrying(i: nat)
      reads this
    {
      FlowInv(View()) && Live(View(), i) && append == Unlocked && fetchers[i].phase == Trying
    }

    /** One pass of the loop in `Sink::fill`: the piece is put down, recorded, and now and then checkpointed. */
    method TakePiece(i: nat, n: nat, due: bool, fate: Fate) returns (ok: bool, ghost steps: seq<Step>)
      requires Filling(i) && fetchers[i].offset + n <= ranges[i].end
      modifies this
      ensures RunsTo(old(View()), steps, View())
      ensures if ok then Filling(i) else Retrying(i)
      ensures fetchers[i].offset == old(fetchers[i].offset) + n && fetchers[i].attempt == old(fetchers[i].attempt)
      ensures (MarkOf(i), ok) == AfterPiece(PlaceOf(i), old(MarkOf(i)), n, due, fate)
    {
      hide Enabled, Apply, RunsTo, FlowInv, AfterCheckpoint, IsDue;
      ghost var s0 := View();
      NoSteps(s0);
      steps := [];
      if n > 0 {
        PutIsEnabled(s0, i, n);
        OneStep(s0, Step.Put(i, n));
        Put(i, n);
        steps := [Step.Put(i, n)];
      }
      ghost var s1 := View();
      RecordIsEnabled(s1, i, due);
      OneStep(s1, Step.Record(i, due));
      var checkpoint := Record(i, due);
      ghost var s2 := View();
      RunsOn(s0, steps, s1, [Step.Record(i, due)], s2);
      steps := steps + [Step.Record(i, due)];
      RunsKeepFlow(s0, steps, s2);
      ok := true;
      if checkpoint {
        ghost var more;
        ok, more := Checkpoint(i, fate);
        RunsOn(s0, steps, s2, more, View());
        steps := steps + more;
      }
    }

    /** A checkpoint of the chunk, as far as it is recorded. */
    method Checkpoint(i: nat, fate: Fate) returns (ok: bool, ghost steps: seq<Step>)
      requires FlowInv(View()) && Live(View(), i) && append == Unlocked
      requires fetchers[i].phase == Checkpointing && fetchers[i].written == 0
      modifies this
      ensures RunsTo(old(View()), steps, View())
      ensures if ok then Filling(i) else Retrying(i)
      ensures fetchers[i].attempt == old(fetchers[i].attempt)
      ensures (MarkOf(i), ok) == AfterCheckpoint(PlaceOf(i), old(MarkOf(i)), fate)
    {
      hide Enabled, Apply, RunsTo, FlowInv, DoneLine, Encode;
      ghost var s0 := View();
      LockIsEnabled(s0, i);
      AppendIs(s0, i);
      ok, steps := AppendRange(i, fate);
      RunsKeepFlow(s0, steps, View());
    }

    /** `Sink::fill`: the stream until it ends, fails, or outruns the range, or a checkpoint fails. */
    method Fill(i: nat, stream: seq<Piece>, due: nat -> bool, fates: nat -> Fate)
      returns (ended: bool, ghost steps: seq<Step>)
      requires Filling(i)
      modifies this
      ensures RunsTo(old(View()), steps, View()) && Retrying(i)
      ensures fetchers[i].attempt == old(fetchers[i].attempt) && fetchers[i].offset >= old(fetchers[i].offset)
      ensures ended ==> fetchers[i].offset == old(fetchers[i].offset) + Length(stream)
      ensures (MarkOf(i), ended) == AfterStream(PlaceOf(i), old(MarkOf(i)), stream, due, fates, 0)
    {
      hide Enabled, Apply, RunsTo, FlowInv;
      ghost var s0 := View();
      NoSteps(s0);
      steps := [];
      ended := true;
      for k := 0 to |stream|
        invariant Filling(i) && RunsTo(s0, steps, View())
        invariant fetchers[i].offset == old(fetchers[i].offset) + Length(stream[..k])
        invariant fetchers[i].attempt == old(fetchers[i].attempt)
        invariant ended && AfterStream(PlaceOf(i), old(MarkOf(i)), stream, due, fates, 0)
                           == AfterStream(PlaceOf(i), MarkOf(i), stream, due, fates, k)
      {
        assert stream[..k + 1][..k] == stream[..k];
        if stream[k].Fault? || stream[k].n > Room(i) {
          ended := false;
          break;
        }
        ghost var at := View();
        var ok;
        ghost var more;
        ok, more := TakePiece(i, stream[k].n, due(k), fates(k));
        RunsOn(s0, steps, at, more, View());
        steps := steps + more;
        if !ok {
          return false, steps;
        }
      }
      assert stream[..|stream|] == stream;
      ghost var last := View();
      BreakIsEnabled(last, i);
      OneStep(last, Step.Break(i));
      Break(i);
      RunsOn(s0, steps, last, [Step.Break(i)], View());
      steps := steps + [Step.Break(i)];
      RunsKeepFlow(s0, steps, View());
    }

    /** What is left of the chunk's range. */
    function Room(i: nat): int
      requires i < |fetchers| && i < |ranges|
      reads this
    {
      ranges[i].end - fetchers[i].offset
    }

    /** `scatter_one`: attempts until the range is full or they are spent, then the whole range is recorded.
        An error leaves nothing but giving up. */
    method ScatterOne(i: nat, streams: nat -> seq<Piece>, due: nat -> nat -> bool, fates: nat -> nat -> Fate,
                      last: Fate)
      returns (ok: bool, ghost steps: seq<Step>)
      requires Retrying(i) && fetchers[i].attempt == 0
      modifies this
      ensures RunsTo(old(View()), steps, View()) && FlowInv(View())
      ensures ok ==> Live(View(), i) && append == Unlocked && fetchers[i].phase == Finished
      ensures !ok ==> Enabled(View(), Step.GiveUp(i))
      ensures var m := AfterAttempts(PlaceOf(i), old(MarkOf(i)), streams, due, fates, retries, 0);
              && (ok <==> m.offset == ranges[i].end && Goes(|resource|, m.text, ranges[i], last))
              && (ok ==> text == m.text + DoneLine(ranges[i]))
    {
      hide Enabled, Apply, RunsTo, FlowInv, DoneLine, AfterAttempts, AfterStream, Encode;
      ghost var s0 := View();
      NoSteps(s0);
      steps := [];
      ghost var more;
      var attempt := 0;
      while attempt <= retries && fetchers[i].offset < ranges[i].end
        invariant Retrying(i) && RunsTo(s0, steps, View()) && fetchers[i].attempt == attempt
        invariant AfterAttempts(PlaceOf(i), old(MarkOf(i)), streams, due, fates, retries, 0)
               == AfterAttempts(PlaceOf(i), MarkOf(i), streams, due, fates, retries, attempt)
        decreases retries + 1 - attempt
      {
        ghost var s1 := View();
        AttemptsStep(PlaceOf(i), MarkOf(i), streams, due, fates, retries, attempt);
        ConnectIsEnabled(s1, i);
        OneStep(s1, Step.Connect(i));
        Connect(i);
        RunsOn(s0, steps, s1, [Step.Connect(i)], View());
        steps := steps + [Step.Connect(i)];
        RunsKeepFlow(s0, steps, View());
        ghost var s2 := View();
        var _, filled := Fill(i, streams(attempt), due(attempt), fates(attempt));
        RunsOn(s0, steps, s2, filled, View());
        steps := steps + filled;
        attempt := attempt + 1;
      }
      AttemptsStep(PlaceOf(i), MarkOf(i), streams, due, fates, retries, attempt);
      if fetchers[i].offset < ranges[i].end {
        SpentGivesUp(View(), i);
        return false, steps;
      }
      ghost var s3 := View();
      ReachIsEnabled(s3, i);
      OneStep(s3, Step.Reach(i));
      Reach(i);
      ghost var s4 := View();
      RunsOn(s0, steps, s3, [Step.Reach(i)], s4);
      steps := steps + [Step.Reach(i)];
      RunsKeepFlow(s0, steps, s4);
      LockIsEnabled(s4, i);
      AppendIs(s4, i);
      WithinItsEnd(s4, i);
      ok, more := AppendRange(i, last);
      RunsOn(s0, steps, s4, more, View());
      steps := steps + more;
      RunsKeepFlow(s0, steps, View());
    }

    // ----- the verifier's sections

    method Look()
      requires Enabled(View(), Step.Look) && |received| == |ranges|
      modifies this
      ensures View() == Apply(old(View()), Step.Look)
    {
      if failed {
        verifier := Returned(false);
        return;
      }
      var frontier := SumContiguous(received, ranges);
      if |hashed| < frontier {
        verifier := Reading(frontier);
      } else {
        verifier := if |hashed| >= |resource| then Returned(true) else Waiting;
      }
    }

    method ReadSome(n: nat)
      requires Enabled(View(), Step.ReadSome(n))
      modifies this
      ensures View() == Apply(old(View()), Step.ReadSome(n))
    {
      var frontier := verifier.frontier;
      hashed := hashed + file[|hashed|..|hashed| + n];
      if |hashed| >= frontier {
        verifier := if |hashed| >= |resource| then Returned(true) else Waiting;
      }
    }

    method Wake()
      requires Enabled(View(), Step.Wake)
      modifies this
      ensures View() == Apply(old(View()), Step.Wake)
    {
      permit := false;
      verifier := Looking;
    }

    method ReadFail()
      requires Enabled(View(), Step.ReadFail)
      modifies this
      ensures View() == Apply(old(View()), Step.ReadFail)
    {
      verifier := Returned(false);
    }

    /** `read_into`: exactly `want` bytes of one chunk, in reads as short as the file gives, unless one fails. */
    method ReadInto(want: nat, index: nat, answers: nat -> Reading) returns (ok: bool, ghost steps: seq<Step>)
      requires FlowInv(View()) && verifier.Reading? && 0 < want && |hashed| + want <= verifier.frontier
      requires index < |ranges| && ranges[index].start <= |hashed| && |hashed| + want <= ranges[index].end
      modifies this
      ensures RunsTo(old(View()), steps, View()) && FlowInv(View())
      ensures received == old(received) && permit == old(permit) && failed == old(failed)
      ensures ok ==> |hashed| == old(|hashed|) + want
      ensures ok ==> if |hashed| < old(verifier.frontier) then verifier == old(verifier)
                     else verifier == if |hashed| >= |resource| then Returned(true) else Waiting
      ensures !ok ==> verifier == Returned(false) && exists left: nat :: left <= want && answers(left) == ReadFailed
    {
      hide Enabled, Apply, RunsTo, FlowInv;
      ghost var s0 := View();
      NoSteps(s0);
      steps := [];
      var remaining := want;
      while remaining > 0
        invariant 0 <= remaining <= want && |hashed| == old(|hashed|) + (want - remaining)
        invariant RunsTo(s0, steps, View()) && FlowInv(View())
        invariant received == old(received) && permit == old(permit) && failed == old(failed)
        invariant if |hashed| < old(verifier.frontier) then verifier == old(verifier)
                  else verifier == if |hashed| >= |resource| then Returned(true) else Waiting
      {
        ghost var s1 := View();
        match answers(remaining) {
          case ReadFailed =>
            ReadFailFacts(s1);
            OneStep(s1, Step.ReadFail);
            ReadFail();
            RunsOn(s0, steps, s1, [Step.ReadFail], View());
            steps := steps + [Step.ReadFail];
            RunsKeepFlow(s0, steps, View());
            return false, steps;
          case Got(short) =>
            var n := Min(Min(remaining, READ_BUFFER), Max(1, short));
            ReadIsEnabled(s1, n, index);
            OneStep(s1, Step.ReadSome(n));
            ReadSome(n);
            RunsOn(s0, steps, s1, [Step.ReadSome(n)], View());
            steps := steps + [Step.ReadSome(n)];
            RunsKeepFlow(s0, steps, View());
            remaining := remaining - n;
        }
      }
      ok := true;
    }

    /** `verify`, until it returns or has nothing left to do but wait: it has then hashed all there is. It fails only
        when a chunk or a read does. */
    method Verify(answers: nat -> Reading) returns (ghost steps: seq<Step>)
      requires FlowInv(View()) && verifier == Looking
      modifies this
      ensures RunsTo(old(View()), steps, View()) && FlowInv(View())
      ensures received == old(received) && failed == old(failed)
      ensures verifier == Returned(false) ==> failed || exists left: nat :: answers(left) == ReadFailed
      ensures failed ==> verifier == Returned(false)
      ensures verifier != Returned(false) ==>
                && |hashed| == ContiguousRun(received, ranges)
                && if |hashed| == |resource| then verifier == Returned(true) else verifier == Waiting && !permit
    {
      hide Enabled, Apply, RunsTo, FlowInv, ContiguousRun;
      ghost var s0 := View();
      NoSteps(s0);
      steps := [];
      while true
        invariant RunsTo(s0, steps, View()) && FlowInv(View()) && verifier == Looking
        invariant received == old(received) && failed == old(failed)
        decreases permit
      {
        ghost var s1 := View();
        LookFacts(s1);
        FrontierInPlan(s1);
        OneStep(s1, Step.Look);
        Look();
        RunsOn(s0, steps, s1, [Step.Look], View());
        steps := steps + [Step.Look];
        RunsKeepFlow(s0, steps, View());
        var frontier := ContiguousRun(received, ranges);
        ghost var nudged := permit;
        while verifier.Reading?
          invariant RunsTo(s0, steps, View()) && FlowInv(View())
          invariant received == old(received) && failed == old(failed) && permit == nudged
          invariant verifier.Reading? ==> verifier.frontier == frontier && |hashed| < frontier
          invariant if failed then verifier == Returned(false)
                    else |hashed| <= frontier <= |resource|
                         && (|hashed| < frontier ==> verifier.Reading?)
                         && (|hashed| == frontier ==>
                             verifier == if |hashed| >= |resource| then Returned(true) else Waiting)
          decreases |resource| - |hashed|
        {
          NextByteHasChunk(View());
          var index := ChunkOf(ranges, |hashed|);
          var want := Min(frontier - |hashed|, ranges[index].end - |hashed|);
          ghost var s2 := View();
          var read, more := ReadInto(want, index, answers);
          RunsOn(s0, steps, s2, more, View());
          steps := steps + more;
          if !read {
            return;
          }
        }
        if verifier.Returned? || !permit {
          return;
        }
        ghost var s3 := View();
        WakeFacts(s3);
        OneStep(s3, Step.Wake);
        Wake();
        RunsOn(s0, steps, s3, [Step.Wake], View());
        steps := steps + [Step.Wake];
        RunsKeepFlow(s0, steps, View());
      }
    }
  }

  lemma ReadFailFacts(s: Run)
    requires s.verifier.Reading?
    ensures Enabled(s, Step.ReadFail)
    ensures var t := Apply(s, Step.ReadFail);
            && t.received == s.received && t.permit == s.permit && t.failed == s.failed && t.verifier == Returned(false)
  {}

  lemma FrontierInPlan(s: Run)
    requires FlowInv(s)
    ensures |s.hashed| <= s.Frontier() <= |s.resource| && |s.received| == |s.ranges|
  {
    hide ControlInv, Locked, Ordered, ContiguousRun;
    ShapeFacts(s);
  }

  lemma ReadIsEnabled(s: Run, n: nat, index: nat)
    requires FlowInv(s) && s.verifier.Reading? && 0 < n <= READ_BUFFER
    requires index < |s.ranges| && s.ranges[index].start <= |s.hashed| && |s.hashed| + n <= s.ranges[index].end
    requires |s.hashed| + n <= s.verifier.frontier
    ensures Enabled(s, ReadSome(n))
    ensures var t := Apply(s, ReadSome(n));
            && |t.hashed| == |s.hashed| + n && t.ranges == s.ranges && t.received == s.received && t.permit == s.permit
            && t.failed == s.failed
            && if |t.hashed| < s.verifier.frontier then t.verifier == s.verifier
               else t.verifier == if |t.hashed| >= |s.resource| then Returned(true) else Waiting
  {
    hide Stable, Locked, Ordered, ContiguousRun;
    ShapeFacts(s);
  }

  lemma LookFacts(s: Run)
    requires FlowInv(s) && s.verifier == Looking
    ensures Enabled(s, Look)
    ensures var t := Apply(s, Look);
            && t.hashed == s.hashed && t.ranges == s.ranges && t.received == s.received && t.permit == s.permit
            && t.failed == s.failed
            && t.verifier == if s.failed then Returned(false)
                             else if |s.hashed| < s.Frontier() then Reading(s.Frontier())
                             else if |s.hashed| >= |s.resource| then Returned(true) else Waiting
  {
    hide ContiguousRun, FlowInv;
  }

  lemma WakeFacts(s: Run)
    requires s.verifier == Waiting && s.permit
    ensures Enabled(s, Wake)
    ensures Apply(s, Wake) == s.(permit := false, verifier := Looking)
  {}

  /** The first chunk that ends past what has been hashed. */
  predicate HoldsNext(s: Run, i: nat)
    requires i < |s.ranges|
  {
    |s.hashed| < s.ranges[i].end && forall j :: 0 <= j < i ==> s.ranges[j].end <= |s.hashed|
  }

  /** While reading, the frontier lies within the plan, so the next byte to read lies in some chunk. */
  lemma NextByteHasChunk(s: Run)
    requires FlowInv(s) && s.verifier.Reading?
    ensures |s.hashed| < s.verifier.frontier <= |s.resource|
    ensures exists i :: 0 <= i < |s.ranges| && s.ranges[i].start <= |s.hashed| < s.ranges[i].end
    ensures forall i :: 0 <= i < |s.ranges| && HoldsNext(s, i) ==> s.ranges[i].start <= |s.hashed|
  {
    hide ControlInv, Locked, Ordered, ContiguousRun;
    ShapeFacts(s);
    TileAt(s.ranges, 0, |s.resource|, |s.hashed|);
    var k :| 0 <= k < |s.ranges| && s.ranges[k].start <= |s.hashed| < s.ranges[k].end;
    forall i | 0 <= i < |s.ranges| && HoldsNext(s, i)
      ensures s.ranges[i].start <= |s.hashed|
    {
      TileEnds(s.ranges, 0, |s.resource|, if i < k then i else k);
    }
  }

  function Length(stream: seq<Piece>): nat
  {
    if stream == [] then 0
    else Length(stream[..|stream| - 1]) + if stream[|stream| - 1].Piece? then stream[|stream| - 1].n else 0
  }

  lemma NoSteps(s: Run)
    ensures RunsTo(s, [], s)
  {}

  lemma PutIsEnabled(s: Run, i: nat, n: nat)
    requires FlowInv(s) && Live(s, i) && s.fetchers[i].phase == Streaming && s.fetchers[i].written == 0
    requires 0 < n && s.fetchers[i].offset + n <= s.ranges[i].end
    ensures Enabled(s, Step.Put(i, n))
    ensures var t := Apply(s, Step.Put(i, n));
            && Live(t, i) && t.fetchers == s.fetchers[i := s.fetchers[i].(written := n)] && t.append == s.append
            && t.text == s.text
  {
    hide ControlInv, Paced, Locked, Ordered, Overlay;
    ShapeFacts(s);
  }

  lemma RecordIsEnabled(s: Run, i: nat, due: bool)
    requires Live(s, i) && s.fetchers[i].phase == Streaming
    ensures Enabled(s, Step.Record(i, due))
    ensures var t := Apply(s, Step.Record(i, due));
            && Live(t, i) && t.fetchers[i].offset == s.fetchers[i].offset + s.fetchers[i].written
            && t.fetchers[i].written == 0 && t.fetchers[i].checkpointed == s.fetchers[i].checkpointed
            && t.fetchers[i].attempt == s.fetchers[i].attempt && t.append == s.append && t.text == s.text
            && (t.fetchers[i].phase == Checkpointing
                <==> IsDue(Mark(t.fetchers[i].offset, t.fetchers[i].checkpointed, t.text), due))
  {}

  lemma LockIsEnabled(s: Run, i: nat)
    requires FlowInv(s) && Live(s, i) && s.append == Unlocked && s.fetchers[i].phase in {Checkpointing, Closing}
    ensures Enabled(s, Step.Lock(i))
  {
    hide Stable, Paced, Locked, Ordered, Shape;
  }

  lemma BreakIsEnabled(s: Run, i: nat)
    requires Live(s, i) && s.fetchers[i].phase == Streaming
    ensures Enabled(s, Step.Break(i))
    ensures var t := Apply(s, Step.Break(i));
            && Live(t, i) && t.append == s.append && t.text == s.text
            && t.fetchers[i] == s.fetchers[i].(phase := Trying, written := 0)
  {}

  lemma ConnectIsEnabled(s: Run, i: nat)
    requires Live(s, i) && s.fetchers[i].phase == Trying
    requires s.fetchers[i].offset < s.ranges[i].end && s.fetchers[i].attempt <= s.retries
    ensures Enabled(s, Step.Connect(i))
    ensures var t := Apply(s, Step.Connect(i));
            && Live(t, i) && t.append == s.append && t.text == s.text
            && t.fetchers[i] == s.fetchers[i].(phase := Streaming, written := 0, attempt := s.fetchers[i].attempt + 1)
  {}

  lemma ReachIsEnabled(s: Run, i: nat)
    requires Live(s, i) && s.fetchers[i].phase == Trying && s.fetchers[i].offset >= s.ranges[i].end
    ensures Enabled(s, Step.Reach(i))
    ensures var t := Apply(s, Step.Reach(i));
            && Live(t, i) && t.append == s.append && t.text == s.text
            && t.fetchers[i] == s.fetchers[i].(phase := Closing)
  {}

  /** What an append in a chunk's turn writes, and how much. */
  lemma AppendIs(s: Run, i: nat)
    requires FlowInv(s) && Live(s, i) && s.fetchers[i].phase in {Checkpointing, Closing}
    ensures s.AppendRange(i) == if s.fetchers[i].phase == Checkpointing && s.fetchers[i].offset <= U64_MAX
                                then ByteRange(s.ranges[i].start, s.fetchers[i].offset) else s.ranges[i]
    ensures AppendSize(s, i) == LineSize(s.AppendRange(i))
  {
    hide ControlInv, Paced, Locked, Ordered, Encode, DoneLine, Stamped;
    assert ShapeAt(s, i);
    StampedLength(s.Total(), s.Trailer(), Encode(DoneLine(s.AppendRange(i))));
  }

  /** A chunk never goes past its end. */
  lemma WithinItsEnd(s: Run, i: nat)
    requires FlowInv(s) && Live(s, i)
    ensures s.fetchers[i].offset <= s.ranges[i].end
  {
    hide ControlInv, Paced, Locked, Ordered;
    assert ShapeAt(s, i);
  }

  /** What one whole append changes besides the file: its line, and its own chunk's phase and checkpoint. */
  ghost predicate After(s: Run, t: Run, i: nat)
  {
    && i < |s.fetchers| && i < |s.ranges| && |t.fetchers| == |s.fetchers| && t.append == Unlocked
    && t.text == s.text + DoneLine(s.AppendRange(i))
    && t.fetchers[i].phase == (if s.fetchers[i].phase == Closing then Finished else Streaming)
    && t.fetchers[i].offset == s.fetchers[i].offset && t.fetchers[i].written == s.fetchers[i].written
    && t.fetchers[i].attempt == s.fetchers[i].attempt
    && t.fetchers[i].checkpointed == (if s.fetchers[i].phase == Closing then s.fetchers[i].checkpointed
                                      else s.fetchers[i].offset)
    && Elsewhere(s, t)
  }

  /** What an append that failed, but was survived, changes besides the file: its own chunk's phase, and the text
      when the writer has moved on. */
  ghost predicate GivenBack(s: Run, t: Run, i: nat, moves: bool)
  {
    && i < |s.fetchers| && i < |s.ranges| && |t.fetchers| == |s.fetchers| && t.append == Unlocked
    && t.fetchers[i] == s.fetchers[i].(phase := Trying, written := 0)
    && t.text == (if moves then s.text + DoneLine(s.AppendRange(i)) else s.text)
    && Elsewhere(s, t)
  }

  ghost predicate Elsewhere(s: Run, t: Run)
  {
    && t.resource == s.resource && t.ranges == s.ranges && t.received == s.received && t.retries == s.retries
    && t.verifier == s.verifier && t.hashed == s.hashed && t.driven == s.driven && t.failed == s.failed
  }

  lemma SpentGivesUp(s: Run, i: nat)
    requires Live(s, i) && s.fetchers[i].phase == Trying && s.fetchers[i].offset < s.ranges[i].end
    requires s.fetchers[i].attempt > s.retries
    ensures Enabled(s, Step.GiveUp(i))
  {}

  /** The lock held for chunk `i`, with some of its append down: nothing else has changed but the file. */
  ghost predicate Held(s: Run, t: Run, i: nat)
  {
    && i < |s.fetchers| && i < |s.ranges| && t == s.(file := t.file, append := t.append)
    && t.append.Appending? && t.append.owner == i && t.append.range == s.AppendRange(i) && !s.driven && Live(s, i)
    && s.fetchers[i].phase in {Checkpointing, Closing}
  }

  lemma LockedFacts(s: Run, i: nat)
    requires Enabled(s, Step.Lock(i))
    ensures var t := Apply(s, Step.Lock(i)); Held(s, t, i) && t.append.reached == 0
  {}

  lemma PutFacts(s: Run, t: Run, i: nat, n: nat)
    requires Held(s, t, i) && t.append.reached == 0 && 0 < n <= |t.Buffer()|
    requires |t.resource| + t.Trailer() + n <= MAX_FILE
    ensures Enabled(t, Step.PutControl(n))
    ensures var u := Apply(t, Step.PutControl(n)); Held(s, u, i) && u.append.reached == n
  {
    hide Encode, Overlay, DoneLine, Stamped;
  }

  lemma UnlockFacts(s: Run, t: Run, i: nat)
    requires Held(s, t, i) && t.append.reached == |t.Buffer()|
    ensures Enabled(t, Step.Unlock) && After(s, Apply(t, Step.Unlock), i)
  {
    hide Stamped, Encode, Overlay, DoneLine;
  }

  lemma FailFacts(s: Run, t: Run, i: nat, moves: bool)
    requires Held(s, t, i) && t.append.reached <= |t.Buffer()| && (t.append.reached == |t.Buffer()| ==> moves)
    ensures s.fetchers[i].phase == Checkpointing ==>
              Enabled(t, Step.FailControl(moves)) && GivenBack(s, Apply(t, Step.FailControl(moves)), i, moves)
    ensures s.fetchers[i].phase == Closing ==> Enabled(t, Step.GiveUp(i))
  {
    hide Stamped, Encode, Overlay, DoneLine;
  }
}
