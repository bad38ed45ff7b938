/** A run with attempts and room left can be brought to success. */
module Progress {
  import opened Common
  import opened Text
  import opened Plan
  import opened ControlFile
  import opened ControlLaws
  import opened Engine
  import opened EngineLaws
  import opened ScatterSafety

  /** Over all chunks, what `g` says of each. */
  function TotalOf(g: (Fetcher, ByteRange) -> nat, fetchers: seq<Fetcher>, ranges: seq<ByteRange>): nat
    requires |fetchers| == |ranges|
  {
    if fetchers == [] then 0 else g(fetchers[0], ranges[0]) + TotalOf(g, fetchers[1..], ranges[1..])
  }

  lemma {:induction false} TotalUpdated(g: (Fetcher, ByteRange) -> nat, fetchers: seq<Fetcher>, ranges: seq<ByteRange>,
                                        i: nat, f: Fetcher)
    requires |fetchers| == |ranges| && i < |fetchers|
    ensures TotalOf(g, fetchers[i := f], ranges) + g(fetchers[i], ranges[i])
         == TotalOf(g, fetchers, ranges) + g(f, ranges[i])
    ensures g(fetchers[i], ranges[i]) <= TotalOf(g, fetchers, ranges)
  {
    if i > 0 {
      assert fetchers[i := f][1..] == fetchers[1..][i - 1 := f];
      TotalUpdated(g, fetchers[1..], ranges[1..], i - 1, f);
    }
  }

  /** The lines a chunk recorded at its end still needs: its closing one, and before that a checkpoint's when there
      is that much between `checkpointed` and the end. */
  function LinesFrom(offset: nat, checkpointed: nat, end: nat): nat
  {
    if offset < end && end - checkpointed >= CHECKPOINT_BYTES then 2 else 1
  }

  function LinesOf(f: Fetcher, r: ByteRange): nat
  {
    match f.phase
    case Finished => 0
    case Closing => 1
    case Checkpointing => 1 + LinesFrom(f.offset, f.offset, r.end)
    case _ => LinesFrom(f.offset, f.checkpointed, r.end)
  }

  /** How far a chunk is from finished, in steps that get on. */
  function WorkOf(f: Fetcher, r: ByteRange): nat
  {
    match f.phase
    case Queued => 8
    case Trying => if f.offset < r.end then 7 else 2
    case Checkpointing => if f.offset < r.end then 7 else 4
    case Streaming => if f.offset + f.written < r.end then 6 else if f.offset < r.end then 5 else 3
    case Closing => 1
    case Finished => 0
  }

  function Effort(s: Run): nat
    requires |s.fetchers| == |s.ranges|
  {
    3 * TotalOf(WorkOf, s.fetchers, s.ranges)
    + if s.append == Unlocked then 2 else if s.append.reached < |s.Buffer()| then 1 else 0
  }

  /** The longest line of a range. */
  const LONGEST_LINE: nat := 47

  /** Nothing has gone wrong, no chunk's attempts are spent, and the file has room for the lines that are to come. */
  predicate IsHopeful(s: Run)
  {
    && !s.driven && s.verifier != Returned(false) && |s.fetchers| == |s.ranges|
    && (forall i :: 0 <= i < |s.fetchers| ==> !IsSpent(s, i))
    && |s.resource| + s.Trailer() + LONGEST_LINE * TotalOf(LinesOf, s.fetchers, s.ranges) + FOOTER <= MAX_FILE
  }

  /** Such a run can be brought to success, with no failure on the way. */
  lemma {:induction false} RunCanSucceed(s: Run) returns (steps: seq<Step>, t: Run)
    requires FlowInv(s) && IsHopeful(s)
    ensures RunsTo(s, steps, t) && Succeeded(t)
    ensures forall step :: step in steps ==> !step.ReadFail? && !step.FailControl? && !step.GiveUp?
    decreases Effort(s)
  {
    hide FlowInv, Enabled, Apply, Effort, TotalOf, Advances;
    HopefulHasRoom(s);
    var step := FetchersCanStep(s);
    StepKeepsFlow(s, step);
    if step == EndDrive {
      EndsSound(s);
      steps, t := SoundRunCanSucceed(Apply(s, step));
    } else {
      GetsOn(s, step);
      steps, t := RunCanSucceed(Apply(s, step));
    }
    AdvancesWell(s, step);
    assert ([step] + steps)[1..] == steps;
    steps := [step] + steps;
  }

  lemma AdvancesWell(s: Run, step: Step)
    requires Advances(s, step)
    ensures !step.ReadFail? && !step.FailControl? && !step.GiveUp?
  {}

  lemma HopefulHasRoom(s: Run)
    requires FlowInv(s) && IsHopeful(s)
    ensures HasRoom(s)
  {
    hide Shape, ControlInv, Paced, Ordered, Encode, DoneLine, Stamped, TotalOf;
    if s.append.Appending? {
      var i := s.append.owner;
      TotalUpdated(LinesOf, s.fetchers, s.ranges, i, s.fetchers[i]);
      BufferIsShort(s);
    }
  }

  lemma BufferIsShort(s: Run)
    requires s.append.Appending?
    ensures |s.Buffer()| <= LONGEST_LINE + FOOTER && |Encode(DoneLine(s.append.range))| <= LONGEST_LINE
    ensures 0 < |s.Buffer()|
  {
    hide Encode, DoneLine, Stamped;
    var line := Encode(DoneLine(s.append.range));
    StampedLength(s.Total(), s.Trailer(), line);
    DoneLineBytes(s.append.range);
    DoneLineIsShort(s.append.range);
  }

  lemma EndsSound(s: Run)
    requires FlowInv(s) && IsHopeful(s) && Enabled(s, EndDrive)
    ensures IsSound(Apply(s, EndDrive))
  {
    hide Shape, ControlInv, Locked, Ordered, TotalOf, ContiguousRun;
  }

  lemma GetsOn(s: Run, step: Step)
    requires FlowInv(s) && IsHopeful(s) && Enabled(s, step) && Advances(s, step) && step != EndDrive
    ensures IsHopeful(Apply(s, step)) && Effort(Apply(s, step)) < Effort(s)
  {
    hide FlowInv, IsHopeful, Effort, Enabled, Apply, Advances;
    if Streams(step) || step.Record? {
      ChunkGetsOn(s, step);
    } else if step == Unlock {
      UnlockGetsOn(s);
    } else {
      AdvancesOnly(s, step);
      LockGetsOn(s, step);
    }
  }

  lemma AdvancesOnly(s: Run, step: Step)
    requires Advances(s, step) && !Streams(step) && !step.Record? && step != Unlock && step != EndDrive
    ensures step.Lock? || step.PutControl?
  {}

  /** A step of chunk `i` that changes nothing but that chunk, its progress and the file. */
  predicate MovesChunk(s: Run, t: Run, i: nat)
  {
    && i < |s.fetchers| == |s.ranges| == |t.fetchers|
    && t == s.(file := t.file, received := t.received, permit := t.permit, fetchers := s.fetchers[i := t.fetchers[i]])
  }

  lemma ChunkGetsOn(s: Run, step: Step)
    requires FlowInv(s) && IsHopeful(s) && Enabled(s, step) && Advances(s, step) && (Streams(step) || step.Record?)
    ensures IsHopeful(Apply(s, step)) && Effort(Apply(s, step)) < Effort(s)
  {
    hide FlowInv, IsSpent, Enabled, Apply, Advances, TotalOf, WorkOf, LinesOf, Encode, DoneLine, Stamped;
    var i := ChunkMoves(s, step);
    var t := Apply(s, step);
    ChunkNears(s, step, i);
    TotalUpdated(WorkOf, s.fetchers, s.ranges, i, t.fetchers[i]);
    TotalUpdated(LinesOf, s.fetchers, s.ranges, i, t.fetchers[i]);
    forall j | 0 <= j < |t.fetchers|
      ensures !IsSpent(t, j)
    {
      if j != i { SameIsSpent(s, t, j); }
    }
  }

  lemma SameIsSpent(s: Run, t: Run, j: nat)
    requires j < |s.fetchers| == |t.fetchers| && t.fetchers[j] == s.fetchers[j]
    requires t.ranges == s.ranges && t.retries == s.retries
    ensures IsSpent(t, j) == IsSpent(s, j)
  {}

  lemma ChunkMoves(s: Run, step: Step) returns (i: nat)
    requires FlowInv(s) && Enabled(s, step) && (Streams(step) || step.Record?)
    ensures Subject(s, step) == Some(i) && MovesChunk(s, Apply(s, step), i)
  {
    hide Overlay, Encode, Stamped, DoneLine, ControlInv, Paced, Locked, Ordered, ShapeAt, Tiles, ContiguousRun;
    i := Subject(s, step).value;
  }

  /** The chunk a step gets on is nearer to finished, and needs no more lines than before. */
  lemma ChunkNears(s: Run, step: Step, i: nat)
    requires FlowInv(s) && Enabled(s, step) && Advances(s, step) && (Streams(step) || step.Record?)
    requires Subject(s, step) == Some(i) && i < |s.fetchers| == |s.ranges| == |Apply(s, step).fetchers|
    ensures var t := Apply(s, step); var r := s.ranges[i];
            && WorkOf(t.fetchers[i], r) < WorkOf(s.fetchers[i], r)
            && LinesOf(t.fetchers[i], r) <= LinesOf(s.fetchers[i], r)
            && !IsSpent(t, i)
  {
    hide Overlay, Encode, Stamped, DoneLine, ControlInv, Paced, Locked, Tiles, ContiguousRun;
    assert ShapeAt(s, i);
  }

  lemma LockGetsOn(s: Run, step: Step)
    requires FlowInv(s) && IsHopeful(s) && Enabled(s, step) && Advances(s, step) && (step.Lock? || step.PutControl?)
    ensures IsHopeful(Apply(s, step)) && Effort(Apply(s, step)) < Effort(s)
  {
    hide FlowInv, IsSpent, Overlay, Encode, Stamped, DoneLine, TotalOf;
    var t := Apply(s, step);
    BufferIsShort(t);
    assert t.Trailer() == s.Trailer() && t.fetchers == s.fetchers;
    forall j | 0 <= j < |t.fetchers|
      ensures !IsSpent(t, j)
    {
      SameIsSpent(s, t, j);
    }
  }

  lemma UnlockGetsOn(s: Run)
    requires FlowInv(s) && IsHopeful(s) && Enabled(s, Unlock)
    ensures IsHopeful(Apply(s, Unlock)) && Effort(Apply(s, Unlock)) < Effort(s)
  {
    hide FlowInv, IsSpent, Apply, Enabled, TotalOf, WorkOf, LinesOf, Encode, DoneLine, Stamped;
    var i := UnlockMoves(s);
    var t := Apply(s, Unlock);
    BufferIsShort(s);
    TotalUpdated(WorkOf, s.fetchers, s.ranges, i, t.fetchers[i]);
    TotalUpdated(LinesOf, s.fetchers, s.ranges, i, t.fetchers[i]);
    forall j | 0 <= j < |t.fetchers|
      ensures !IsSpent(t, j)
    {
      if j != i { SameIsSpent(s, t, j); }
    }
  }

  /** A whole append takes one from the lines its chunk needs. */
  lemma UnlockMoves(s: Run) returns (i: nat)
    requires FlowInv(s) && Enabled(s, Unlock)
    ensures var t := Apply(s, Unlock);
            && s.append.Appending? && s.append.reached == |s.Buffer()|
            && i < |s.fetchers| == |s.ranges| == |t.fetchers| && t.append == Unlocked
            && t.text == s.text + DoneLine(s.append.range)
            && t == s.(text := t.text, footing := t.footing, append := t.append,
                       fetchers := s.fetchers[i := t.fetchers[i]])
            && |Encode(t.text)| == |Encode(s.text)| + |Encode(DoneLine(s.append.range))|
            && WorkOf(t.fetchers[i], s.ranges[i]) < WorkOf(s.fetchers[i], s.ranges[i])
            && LinesOf(t.fetchers[i], s.ranges[i]) + 1 == LinesOf(s.fetchers[i], s.ranges[i])
            && !IsSpent(t, i)
  {
    hide Overlay, Encode, Stamped, DoneLine, ControlInv, Paced, Ordered, Tiles, ContiguousRun;
    i := s.append.owner;
    assert ShapeAt(s, i);
    EncodeConcat(s.text, DoneLine(s.append.range));
  }

  /** Every run starts hopeful whose file has room for two lines a chunk. */
  lemma StartIsHopeful(s: Run, probe: Probe, options: Options, text: string)
    requires |s.ranges| == |s.credit|
    requires s == StartRun(probe, options, s.ranges, s.credit, s.resumed, s.file, text)
    requires |probe.resource| + |Encode(text)| + LONGEST_LINE * (2 * |s.ranges|) + FOOTER <= MAX_FILE
    ensures IsHopeful(s)
  {
    hide Encode, TotalOf, LinesOf;
    TwoLinesEach(s.fetchers, s.ranges);
  }

  lemma {:induction false} TwoLinesEach(fetchers: seq<Fetcher>, ranges: seq<ByteRange>)
    requires |fetchers| == |ranges| && forall f :: f in fetchers ==> f.phase == Queued
    ensures TotalOf(LinesOf, fetchers, ranges) <= 2 * |fetchers|
  {
    if fetchers != [] {
      assert fetchers[0] in fetchers;
      TwoLinesEach(fetchers[1..], ranges[1..]);
    }
  }

  // ----- how much is recorded past a checkpoint

  /** No chunk that is not about to append has a checkpoint's worth recorded past its last checkpoint. */
  predicate IsBrief(s: Run)
  {
    forall i :: 0 <= i < |s.fetchers| && s.fetchers[i].phase in {Queued, Trying, Streaming} ==>
      s.fetchers[i].offset - s.fetchers[i].checkpointed < CHECKPOINT_BYTES
  }

  lemma StartIsBrief(s: Run, probe: Probe, options: Options, text: string)
    requires |s.ranges| == |s.credit|
    requires s == StartRun(probe, options, s.ranges, s.credit, s.resumed, s.file, text)
    ensures IsBrief(s)
  {}

  /** The step's own chunk, when it is not a failed checkpoint's. */
  lemma SubjectIsBrief(s: Run, step: Step, i: nat)
    requires FlowInv(s) && IsBrief(s) && Enabled(s, step) && !step.FailControl? && Subject(s, step) == Some(i)
    requires i < |s.fetchers| == |Apply(s, step).fetchers|
    ensures var f := Apply(s, step).fetchers[i];
            f.phase in {Queued, Trying, Streaming} ==> f.offset - f.checkpointed < CHECKPOINT_BYTES
  {
    hide Overlay, Encode, Stamped, DoneLine, ControlInv, Paced, Ordered, Tiles, ContiguousRun, Shape;
  }

  lemma StepKeepsBrief(s: Run, step: Step)
    requires FlowInv(s) && IsBrief(s) && Enabled(s, step) && !step.FailControl?
    ensures IsBrief(Apply(s, step))
  {
    hide Enabled, Apply, FlowInv;
    StepFrame(s, step);
    var t := Apply(s, step);
    forall i | 0 <= i < |t.fetchers| && t.fetchers[i].phase in {Queued, Trying, Streaming}
      ensures t.fetchers[i].offset - t.fetchers[i].checkpointed < CHECKPOINT_BYTES
    {
      if Subject(s, step) == Some(i) { SubjectIsBrief(s, step, i); }
    }
  }

  /** From its start on, while no checkpoint fails, a run never leaves a chunk with a checkpoint's worth unrecorded. */
  lemma {:induction false} RunsStayBrief(s: Run, steps: seq<Step>, t: Run)
    requires FlowInv(s) && IsBrief(s) && RunsTo(s, steps, t) && forall step :: step in steps ==> !step.FailControl?
    ensures IsBrief(t)
    decreases |steps|
  {
    hide Enabled, Apply, FlowInv, IsBrief;
    if steps != [] {
      StepKeepsFlow(s, steps[0]);
      StepKeepsBrief(s, steps[0]);
      RunsStayBrief(Apply(s, steps[0]), steps[1..], t);
    }
  }

  /** A failed checkpoint keeps that so exactly when it fell due by time, short of a checkpoint's worth. */
  lemma FailureKeepsBrief(s: Run, moves: bool)
    requires FlowInv(s) && IsBrief(s) && Enabled(s, FailControl(moves))
    ensures s.append.Appending? && s.append.owner < |s.fetchers|
    ensures var f := s.fetchers[s.append.owner];
            IsBrief(Apply(s, FailControl(moves))) <==> f.offset - f.checkpointed < CHECKPOINT_BYTES
  {
    hide Overlay, Encode, Stamped, DoneLine, ControlInv, Paced, Ordered, Tiles, ContiguousRun, Shape;
    var i, t := s.append.owner, Apply(s, FailControl(moves));
    assert t.fetchers[i] == s.fetchers[i].(phase := Trying, written := 0);
    assert forall j :: 0 <= j < |t.fetchers| && j != i ==> t.fetchers[j] == s.fetchers[j];
  }
}
