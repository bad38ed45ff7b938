/** Safety and progress of the scatter download, over every interleaving, interruption and restart. */
module EngineLaws {
  import opened Common
  import opened Text
  import opened Plan
  import opened ControlFile
  import opened ControlLaws
  import opened Remains
  import opened Engine

  // ----- the frontier is the first byte nobody has received

  ghost predicate Received(received: seq<nat>, ranges: seq<ByteRange>, x: nat)
    requires |received| == |ranges|
  {
    exists i :: 0 <= i < |ranges| && ranges[i].start <= x < ranges[i].start + received[i]
  }

  ghost predicate Within(received: seq<nat>, ranges: seq<ByteRange>)
  {
    |received| == |ranges| && forall i :: 0 <= i < |ranges| ==> received[i] <= ranges[i].Len()
  }

  /** `contiguous_run` is the largest run of received bytes from the start of the plan. */
  lemma {:induction false} FrontierIsFirstHole(received: seq<nat>, ranges: seq<ByteRange>, start: nat, end: nat)
    requires Tiles(ranges, start, end) && Within(received, ranges) && start <= end
    ensures var f := start + ContiguousRun(received, ranges);
            && f <= end
            && (forall x: nat :: start <= x < f ==> Received(received, ranges, x))
            && (f < end ==> !Received(received, ranges, f))
  {
    if ranges != [] {
      var f := start + ContiguousRun(received, ranges);
      TileEnds(ranges, start, end, 0);
      TilesTail(ranges, start, end);
      ReceivedCons(received, ranges, f);
      if received[0] == ranges[0].Len() {
        FrontierIsFirstHole(received[1..], ranges[1..], ranges[0].end, end);
      } else {
        NothingReceivedBefore(received[1..], ranges[1..], ranges[0].end, f);
      }
      forall x: nat | start <= x < f
        ensures Received(received, ranges, x)
      {
        ReceivedCons(received, ranges, x);
      }
    }
  }

  lemma TilesTail(ranges: seq<ByteRange>, start: nat, end: nat)
    requires Tiles(ranges, start, end) && ranges != []
    ensures Tiles(ranges[1..], ranges[0].end, end)
    ensures forall i :: 0 <= i < |ranges[1..]| ==> ranges[0].end <= ranges[1..][i].start
  {
    TileEnds(ranges, start, end, 0);
  }

  lemma NothingReceivedBefore(received: seq<nat>, ranges: seq<ByteRange>, start: nat, x: nat)
    requires |received| == |ranges| && x < start && forall i :: 0 <= i < |ranges| ==> start <= ranges[i].start
    ensures !Received(received, ranges, x)
  {}

  lemma ReceivedCons(received: seq<nat>, ranges: seq<ByteRange>, x: nat)
    requires |received| == |ranges| > 0
    ensures Received(received, ranges, x)
       <==> ranges[0].start <= x < ranges[0].start + received[0] || Received(received[1..], ranges[1..], x)
  {
    if Received(received[1..], ranges[1..], x) {
      var i :| 0 <= i < |ranges[1..]| && ranges[1..][i].start <= x < ranges[1..][i].start + received[1..][i];
      assert ranges[i + 1].start <= x < ranges[i + 1].start + received[i + 1];
    }
    if Received(received, ranges, x) {
      var i :| 0 <= i < |ranges| && ranges[i].start <= x < ranges[i].start + received[i];
      assert i > 0 ==> ranges[1..][i - 1].start <= x < ranges[1..][i - 1].start + received[1..][i - 1];
    }
  }

  /** The frontier never passes the recorded offset of an unfinished chunk. */
  lemma FrontierStopsAt(received: seq<nat>, ranges: seq<ByteRange>, total: nat, i: nat)
    requires Tiles(ranges, 0, total) && Within(received, ranges) && i < |ranges| && received[i] < ranges[i].Len()
    ensures ContiguousRun(received, ranges) <= ranges[i].start + received[i]
  {
    FrontierIsFirstHole(received, ranges, 0, total);
    var x := ranges[i].start + received[i];
    forall j | 0 <= j < |ranges| && ranges[j].start <= x
      ensures ranges[j].start + received[j] <= x
    {
      TileEnds(ranges, 0, total, if i < j then i else j);
    }
    assert !Received(received, ranges, x);
  }

  lemma FrontierGrows(a: seq<nat>, b: seq<nat>, ranges: seq<ByteRange>, total: nat)
    requires Tiles(ranges, 0, total) && Within(a, ranges) && Within(b, ranges)
    requires forall i :: 0 <= i < |ranges| ==> a[i] <= b[i]
    ensures ContiguousRun(a, ranges) <= ContiguousRun(b, ranges) <= total
  {
    FrontierIsFirstHole(a, ranges, 0, total);
    FrontierIsFirstHole(b, ranges, 0, total);
    var f := ContiguousRun(b, ranges);
    assert Received(a, ranges, f) ==> Received(b, ranges, f) by {
      if Received(a, ranges, f) {
        var i :| 0 <= i < |ranges| && ranges[i].start <= f < ranges[i].start + a[i];
        assert ranges[i].start <= f < ranges[i].start + b[i];
      }
    }
  }

  lemma FrontierAtTheEnd(received: seq<nat>, ranges: seq<ByteRange>, total: nat)
    requires Tiles(ranges, 0, total) && Within(received, ranges)
    requires forall i :: 0 <= i < |ranges| ==> received[i] == ranges[i].Len()
    ensures ContiguousRun(received, ranges) == total
  {
    FrontierIsFirstHole(received, ranges, 0, total);
    var f := ContiguousRun(received, ranges);
    if f < total {
      TileAt(ranges, 0, total, f);
      assert Received(received, ranges, f);
    }
  }

  /** Every offset of a tiled range lies in some chunk. */
  lemma {:induction false} TileAt(ranges: seq<ByteRange>, start: nat, end: nat, x: nat)
    requires Tiles(ranges, start, end) && start <= x < end
    ensures exists i :: 0 <= i < |ranges| && ranges[i].start <= x < ranges[i].end
  {
    if x >= ranges[0].end {
      TileAt(ranges[1..], ranges[0].end, end, x);
      var i :| 0 <= i < |ranges[1..]| && ranges[1..][i].start <= x < ranges[1..][i].end;
      assert ranges[i + 1].start <= x < ranges[i + 1].end;
    }
  }

  // ----- what every step of a run keeps

  ghost predicate ShapeAt(s: Run, i: nat)
    requires i < |s.fetchers| == |s.ranges| == |s.received|
  {
    var f, r := s.fetchers[i], s.ranges[i];
    && r.start <= f.offset && f.offset + f.written <= r.end
    && s.received[i] == f.offset - r.start
    && (f.written > 0 ==> f.phase == Streaming)
    && (f.phase in {Closing, Finished} ==> f.offset == r.end)
  }

  /** Offsets stay in their chunks and `received` says how far each has got. */
  ghost predicate Shape(s: Run)
  {
    && |s.resource| <= MAX_FILE && Tiles(s.ranges, 0, |s.resource|)
    && |s.fetchers| == |s.ranges| == |s.received| == |s.credit|
    && forall i :: 0 <= i < |s.ranges| ==> ShapeAt(s, i)
  }

  lemma ShapeFacts(s: Run)
    requires Shape(s)
    ensures Within(s.received, s.ranges) && s.Frontier() <= |s.resource|
    ensures forall i :: 0 <= i < |s.ranges| ==> s.ranges[i].end <= |s.resource|
  {
    forall i | 0 <= i < |s.ranges|
      ensures s.ranges[i].end <= |s.resource| && s.received[i] <= s.ranges[i].Len()
    {
      TileEnds(s.ranges, 0, |s.resource|, i);
      assert ShapeAt(s, i);
    }
    FrontierIsFirstHole(s.received, s.ranges, 0, |s.resource|);
  }

  /** The chunk a step is about. */
  function Subject(s: Run, step: Step): Option<nat>
  {
    match step
    case Begin(i) => Some(i)
    case Connect(i) => Some(i)
    case Put(i, _) => Some(i)
    case Record(i, _) => Some(i)
    case Break(i) => Some(i)
    case Reach(i) => Some(i)
    case Unlock => if s.append.Appending? then Some(s.append.owner) else None
    case FailControl(_) => if s.append.Appending? then Some(s.append.owner) else None
    case _ => None
  }

  /** The control lock is let go. */
  predicate Releases(step: Step) { step == Unlock || step.FailControl? }

  /** Whether the writer has moved past the append it lets go of. */
  predicate Moves(step: Step) { step == Unlock || step == FailControl(true) }

  /** A step leaves every other chunk alone, and what is fixed for the run. */
  lemma StepFrame(s: Run, step: Step)
    requires Enabled(s, step)
    ensures var t := Apply(s, step);
            && t.resource == s.resource && t.ranges == s.ranges && t.credit == s.credit && t.resumed == s.resumed
            && |t.fetchers| == |s.fetchers| && |t.received| == |s.received|
            && (forall j :: 0 <= j < |s.fetchers| && Subject(s, step) != Some(j) ==> t.fetchers[j] == s.fetchers[j])
            && (forall j :: 0 <= j < |s.received| && !(step.Record? && step.i == j) ==> t.received[j] == s.received[j])
            && (!step.Record? ==> t.received == s.received)
  {
    hide Apply, Enabled;
    if Streams(step) {
      StreamFrame(s, step);
    } else if step.Record? {
      RecordFrame(s, step);
    } else if Appends(step) {
      AppendFrame(s, step);
    } else {
      SweepFrame(s, step);
    }
  }

  /** The steps of one fetcher, but for the recording of its progress. */
  predicate Streams(step: Step) { step.Begin? || step.Connect? || step.Put? || step.Break? || step.Reach? }

  /** The steps of an append to the control. */
  predicate Appends(step: Step) { step.Lock? || step.PutControl? || Releases(step) }

  lemma StreamFrame(s: Run, step: Step)
    requires Enabled(s, step) && Streams(step)
    ensures var t := Apply(s, step);
            && t == s.(file := t.file, fetchers := t.fetchers) && |t.fetchers| == |s.fetchers|
            && (forall j :: 0 <= j < |s.fetchers| && Subject(s, step) != Some(j) ==> t.fetchers[j] == s.fetchers[j])
  {
    hide Overlay;
    SubjectInRange(s, step);
  }

  lemma RecordFrame(s: Run, step: Step)
    requires Enabled(s, step) && step.Record?
    ensures var t := Apply(s, step);
            && t == s.(fetchers := t.fetchers, received := t.received, permit := t.permit)
            && |t.fetchers| == |s.fetchers| && |t.received| == |s.received|
            && (forall j :: 0 <= j < |s.fetchers| && Subject(s, step) != Some(j) ==> t.fetchers[j] == s.fetchers[j])
            && (forall j :: 0 <= j < |s.received| && step.i != j ==> t.received[j] == s.received[j])
  {}

  lemma AppendFrame(s: Run, step: Step)
    requires Enabled(s, step) && Appends(step)
    ensures var t := Apply(s, step);
            && t == s.(file := t.file, fetchers := t.fetchers, text := t.text, footing := t.footing, append := t.append)
            && |t.fetchers| == |s.fetchers|
            && (forall j :: 0 <= j < |s.fetchers| && Subject(s, step) != Some(j) ==> t.fetchers[j] == s.fetchers[j])
  {
    hide Stamped, Overlay, DoneLine, Encode;
    SubjectInRange(s, step);
  }

  /** The rest: the ends of the drive, and the verifier's own steps. */
  lemma SweepFrame(s: Run, step: Step)
    requires Enabled(s, step) && !Streams(step) && !Appends(step) && !step.Record?
    ensures var t := Apply(s, step);
            t == s.(failed := t.failed, driven := t.driven, permit := t.permit,
                    verifier := t.verifier, hashed := t.hashed)
  {
    hide Enabled, DoLook, DoRead;
    if step == Look { LookFrame(s); }
    if step.ReadSome? { ReadFrame(s, step.n); }
  }

  lemma LookFrame(s: Run)
    ensures DoLook(s) == s.(verifier := DoLook(s).verifier)
  {
    hide ContiguousRun;
  }

  lemma ReadFrame(s: Run, n: nat)
    requires Enabled(s, ReadSome(n))
    ensures var t := DoRead(s, n); t == s.(verifier := t.verifier, hashed := t.hashed)
  {
    hide ContiguousRun;
  }

  lemma SubjectInRange(s: Run, step: Step)
    requires Enabled(s, step)
    ensures Subject(s, step).Some? ==> Subject(s, step).value < |s.fetchers|
    ensures step.Record? ==> step.i < |s.received|
    ensures Releases(step) ==> s.append.Appending?
  {
    hide Stamped, Encode;
  }

  lemma StreamKeepsShape(s: Run, step: Step, i: nat)
    requires Shape(s) && Enabled(s, step) && i < |s.ranges| && Subject(s, step) == Some(i) && Streams(step)
    requires |Apply(s, step).fetchers| == |s.ranges|
    ensures ShapeAt(Apply(s, step), i)
  {
    hide Overlay, Tiles;
    assert ShapeAt(s, i);
  }

  lemma RecordKeepsShape(s: Run, i: nat, due: bool)
    requires Shape(s) && Enabled(s, Record(i, due)) && i < |s.ranges|
    ensures ShapeAt(Apply(s, Record(i, due)), i)
  {
    hide Tiles;
    assert ShapeAt(s, i);
  }

  lemma AppendKeepsShape(s: Run, step: Step, i: nat)
    requires Shape(s) && Enabled(s, step) && i < |s.ranges| && Subject(s, step) == Some(i) && Releases(step)
    requires var t := Apply(s, step); |t.fetchers| == |s.ranges| == |t.received| && t.ranges == s.ranges
    ensures ShapeAt(Apply(s, step), i)
  {
    hide Stamped, Overlay, DoneLine, Encode, Tiles;
    assert ShapeAt(s, i);
  }

  lemma SubjectKeepsShape(s: Run, step: Step, i: nat)
    requires Shape(s) && Enabled(s, step) && i < |s.ranges| && Subject(s, step) == Some(i)
    requires var t := Apply(s, step); |t.fetchers| == |s.ranges| == |t.received| && t.ranges == s.ranges
    ensures ShapeAt(Apply(s, step), i)
  {
    hide Apply, Enabled, Shape, ShapeAt;
    if Streams(step) {
      StreamKeepsShape(s, step, i);
    } else if step.Record? {
      RecordKeepsShape(s, i, step.due);
    } else {
      AppendKeepsShape(s, step, i);
    }
  }

  lemma StepKeepsShape(s: Run, step: Step)
    requires Shape(s) && Enabled(s, step)
    ensures Shape(Apply(s, step))
  {
    hide Apply, Enabled, Tiles;
    var t := Apply(s, step);
    StepFrame(s, step);
    forall i | 0 <= i < |t.ranges|
      ensures ShapeAt(t, i)
    {
      if Subject(s, step) == Some(i) { SubjectKeepsShape(s, step, i); } else { SameShape(s, t, step, i); }
    }
  }

  lemma SameShape(s: Run, t: Run, step: Step, i: nat)
    requires Shape(s) && t.ranges == s.ranges && |t.fetchers| == |s.fetchers| && |t.received| == |s.received|
    requires i < |s.ranges| && t.fetchers[i] == s.fetchers[i] && t.received[i] == s.received[i]
    ensures ShapeAt(t, i)
  {
    assert ShapeAt(s, i);
  }

  /** `[lo, hi)` of the file is what the resource has there. */
  ghost predicate Good(file: seq<byte>, resource: seq<byte>, lo: nat, hi: nat)
  {
    hi <= |resource| <= |file| && forall x :: lo <= x < hi ==> file[x] == resource[x]
  }

  ghost predicate Recorded(file: seq<byte>, resource: seq<byte>, done: seq<ByteRange>)
  {
    forall r :: r in done ==> Good(file, resource, r.start, Min(r.end, |resource|))
  }

  /** `after` differs from `before` only by more of the resource. */
  ghost predicate Improves(before: seq<byte>, after: seq<byte>, resource: seq<byte>)
  {
    && |resource| <= |before| && |resource| <= |after|
    && forall x :: 0 <= x < |resource| ==> after[x] == before[x] || after[x] == resource[x]
  }

  lemma GoodImproves(before: seq<byte>, after: seq<byte>, resource: seq<byte>, done: seq<ByteRange>)
    requires Improves(before, after, resource)
    ensures forall lo: nat, hi: nat :: Good(before, resource, lo, hi) ==> Good(after, resource, lo, hi)
    ensures Recorded(before, resource, done) ==> Recorded(after, resource, done)
  {}

  /** How far a chunk's bytes have been put down. */
  function Reached(f: Fetcher): nat { f.offset + f.written }

  ghost predicate ChunksGood(s: Run)
  {
    && |s.fetchers| == |s.ranges|
    && forall i :: 0 <= i < |s.ranges| ==> Good(s.file, s.resource, s.ranges[i].start, Reached(s.fetchers[i]))
  }

  /** The file as it would be had the append in progress not begun. */
  function Resting(s: Run): seq<byte>
    requires |s.resource| <= |s.file|
  {
    if s.append.Appending? then s.file[..|s.resource|] + s.append.tail else s.file
  }

  /** Everything the writer has moved past is in the file. */
  ghost predicate HasText(file: seq<byte>, total: nat, text: string)
  {
    total + |Encode(text)| <= |file| && file[total..total + |Encode(text)|] == Encode(text)
  }

  /** The file past the data is as the footing says. */
  ghost predicate Rests(file: seq<byte>, total: nat, text: string, footing: Footing)
  {
    && (footing.IsWhole() ==> HasText(file, total, text))
    && (footing == Intact ==> Stable(file, total, text))
    && (footing == Torn ==> IsTornTail(file, total + |Encode(text)|))
  }

  /** The control is at rest, but for a prefix of the append in progress. */
  ghost predicate ControlInv(s: Run)
  {
    && |s.resource| + FOOTER <= |s.file| <= MAX_FILE
    && (s.append.Appending? ==> FOOTER <= |s.append.tail|)
    && Rests(Resting(s), |s.resource|, s.text, s.footing)
    && (s.append.Appending? ==>
          && s.append.reached <= |s.Buffer()|
          && s.file[|s.resource|..] == Overlay(s.append.tail, s.Trailer(), s.Buffer()[..s.append.reached]))
  }

  /** Everything recorded, or about to be, is true of the resource. */
  ghost predicate Truthful(s: Run)
  {
    && |s.resource| <= |s.file|
    && Recorded(s.file, s.resource, NotesIn(s.text).done)
    && (s.append.Appending? ==> Good(s.file, s.resource, s.append.range.start, Min(s.append.range.end, |s.resource|)))
  }

  /** Writing in two pieces is writing at once. */
  lemma OverlayGrows(file: seq<byte>, at: nat, data: seq<byte>, k: nat, n: nat)
    requires k + n <= |data|
    ensures Overlay(Overlay(file, at, data[..k]), at + k, data[k..k + n]) == Overlay(file, at, data[..k + n])
  {
    hide Overlay;
    var a := Overlay(file, at, data[..k]);
    OverlayAt(file, at, data[..k]);
    OverlayAt(a, at + k, data[k..k + n]);
    OverlayAt(file, at, data[..k + n]);
  }

  /** A write past the data touches nothing of it. */
  lemma OverlayAfter(data: seq<byte>, rest: seq<byte>, p: nat, piece: seq<byte>)
    ensures Overlay(data + rest, |data| + p, piece) == data + Overlay(rest, p, piece)
  {
    hide Overlay;
    OverlayAt(data + rest, |data| + p, piece);
    OverlayAt(rest, p, piece);
  }

  lemma RestsByTail(a: seq<byte>, b: seq<byte>, total: nat, text: string, footing: Footing)
    requires total + FOOTER <= |a| == |b| && a[total..] == b[total..]
    ensures Rests(a, total, text, footing) ==> Rests(b, total, text, footing)
  {
    hide IsFooter;
    var t := |Encode(text)|;
    if Rests(a, total, text, footing) {
      if footing.IsWhole() {
        assert a[total..total + t] == a[total..][..t] && b[total..total + t] == b[total..][..t];
        assert a[total + t..] == a[total..][t..] && b[total + t..] == b[total..][t..];
      }
      assert forall x :: total <= x < |a| ==> a[x] == a[total..][x - total] && b[x] == b[total..][x - total];
    }
  }

  lemma PutFile(s: Run, i: nat, n: nat)
    requires Shape(s) && |s.resource| <= |s.file| && Enabled(s, Put(i, n))
    ensures var t := Apply(s, Put(i, n)); var at := Reached(s.fetchers[i]);
            && |t.file| == |s.file| && t.file[|s.resource|..] == s.file[|s.resource|..]
            && at + n <= |s.resource| && Reached(t.fetchers[i]) == at + n
            && forall x :: 0 <= x < |s.resource| ==> t.file[x] == if at <= x < at + n then s.resource[x] else s.file[x]
  {
    hide Stable, Tiles, Overlay;
    var at := s.fetchers[i].offset + s.fetchers[i].written;
    OverlayAt(s.file, at, s.resource[at..at + n]);
  }

  lemma PutImproves(s: Run, i: nat, n: nat)
    requires Shape(s) && |s.resource| <= |s.file| && Enabled(s, Put(i, n))
    ensures var t := Apply(s, Put(i, n));
            |t.file| == |s.file| && Improves(s.file, t.file, s.resource)
            && t.file[|s.resource|..] == s.file[|s.resource|..]
    ensures ChunksGood(s) ==> ChunksGood(Apply(s, Put(i, n)))
  {
    hide Apply;
    var t := Apply(s, Put(i, n));
    PutFile(s, i, n);
    StepFrame(s, Put(i, n));
    GoodImproves(s.file, t.file, s.resource, []);
    if ChunksGood(s) {
      forall j | 0 <= j < |s.ranges|
        ensures Good(t.file, s.resource, s.ranges[j].start, Reached(t.fetchers[j]))
      {
        assert Good(s.file, s.resource, s.ranges[j].start, Reached(s.fetchers[j]));
      }
    }
  }

  lemma PutControlGrows(s: Run, n: nat)
    requires ControlInv(s) && Enabled(s, PutControl(n))
    ensures var t := Apply(s, PutControl(n)); ControlInv(t) && t.file[..|s.resource|] == s.file[..|s.resource|]
  {
    hide Rests, Stamped, DoneLine, Encode, Overlay, Enabled, Apply;
    PutControlFile(s, n);
    var t := Apply(s, PutControl(n));
    assert Resting(t) == Resting(s) && t.Buffer() == s.Buffer();
  }

  lemma PutControlFile(s: Run, n: nat)
    requires ControlInv(s) && Enabled(s, PutControl(n))
    ensures s.append.Appending?
    ensures var t := Apply(s, PutControl(n)); var (total, k) := (|s.resource|, s.append.reached + n);
            && k <= |s.Buffer()| && t == s.(file := t.file, append := s.append.(reached := k))
            && total + FOOTER <= |t.file| <= MAX_FILE && t.file[..total] == s.file[..total]
            && t.file[total..] == Overlay(s.append.tail, s.Trailer(), s.Buffer()[..k])
  {
    hide Rests, Stamped, DoneLine, Encode, Overlay;
    var total, trailer, k := |s.resource|, s.Trailer(), s.append.reached;
    var data, rest, piece := s.file[..total], s.file[total..], s.Buffer()[k..k + n];
    assert s.file == data + rest;
    OverlayAfter(data, rest, trailer + k, piece);
    OverlayGrows(s.append.tail, trailer, s.Buffer(), k, n);
    OverlayAt(rest, trailer + k, piece);
    var after := Overlay(rest, trailer + k, piece);
    assert (data + after)[..total] == data && (data + after)[total..] == after;
  }

  lemma StableShape(file: seq<byte>, total: nat, text: string)
    requires Stable(file, total, text)
    ensures |file| == total + |Encode(text)| + FOOTER
  {}

  /** An append over a resting control, seen as one write over the whole file. */
  lemma AppendedFile(s: Run)
    requires ControlInv(s) && s.append.Appending?
    ensures |Resting(s)| == |s.resource| + |s.append.tail|
    ensures s.file == Overlay(Resting(s), |s.resource| + s.Trailer(), s.Buffer()[..s.append.reached])
    ensures |s.Buffer()| == |Encode(DoneLine(s.append.range))| + FOOTER
    ensures s.append.reached == 0 ==> s.file == Resting(s)
  {
    hide Rests, Stamped, DoneLine, Encode, Overlay;
    var total := |s.resource|;
    OverlayAfter(s.file[..total], s.append.tail, s.Trailer(), s.Buffer()[..s.append.reached]);
    assert s.file == s.file[..total] + s.file[total..];
    StampedLength(|s.resource|, s.Trailer(), Encode(DoneLine(s.append.range)));
    NothingPut(Resting(s), total + s.Trailer(), s.Buffer());
  }

  /** Whatever became of an append, letting go of it leaves the control at rest on the footing it then has. */
  lemma ReleaseRests(s: Run, moves: bool)
    requires ControlInv(s) && s.append.Appending? && (s.append.reached == |s.Buffer()| ==> moves)
    ensures Rests(s.file, |s.resource|, s.TextAfter(moves), s.FootingAfter(moves))
  {
    hide Stable, Stamped, DoneLine, Encode, Overlay, IsTornTail, HasText;
    var total, k, rest, footing := |s.resource|, s.append.reached, Resting(s), s.footing;
    AppendedFile(s);
    DoneLineBytes(s.append.range);
    if s.FootingAfter(moves).IsWhole() && k > 0 {
      AppendInRoom(s);
      if footing == Intact {
        StableShape(rest, total, s.text);
        OverlayAt(rest, total + s.Trailer(), s.Buffer()[..k]);
      }
      if k == |s.Buffer()| {
        assert s.Buffer()[..k] == s.Buffer();
        WholeAppendRests(rest, total, s.text, s.append.range, s.FootingAfter(moves));
      } else if moves {
        MovedAppendRests(rest, total, s.text, s.append.range, k, footing, s.FootingAfter(moves));
      } else {
        TornAppendRests(rest, total, s.text, s.append.range, k, footing);
      }
    }
  }

  lemma WholeAppendRests(file: seq<byte>, total: nat, text: string, r: ByteRange, footing: Footing)
    requires HasText(file, total, text)
    requires total + |Encode(text)| + |Encode(DoneLine(r))| + FOOTER <= U64_MAX
    requires footing != Torn
    requires footing == Intact ==> |file| <= total + |Encode(text)| + |Encode(DoneLine(r))| + FOOTER
    ensures Rests(Overlay(file, total + |Encode(text)|, Stamped(total, |Encode(text)|, Encode(DoneLine(r)))),
                  total, text + DoneLine(r), footing)
  {
    hide Encode, DoneLine, Overlay, Stamped, IsFooter, IsTornTail;
    var t, line := Encode(text), Encode(DoneLine(r));
    WholeAppendLays(file, total, t, line);
    EncodeConcat(text, DoneLine(r));
    var after := Overlay(file, total + |t|, Stamped(total, |t|, line));
    assert HasText(after, total, text + DoneLine(r));
    if footing == Intact { assert Stable(after, total, text + DoneLine(r)); }
  }

  /** A line that is all down keeps the text whole, whatever of its footer is missing. */
  lemma MovedAppendRests(file: seq<byte>, total: nat, text: string, r: ByteRange, k: nat,
                         before: Footing, footing: Footing)
    requires Rests(file, total, text, before) && before.IsWhole() && FOOTER <= |file|
    requires var line := |Encode(DoneLine(r))|; line <= k < line + FOOTER
    requires footing in {Torn, Overlaid, Muddled}
    requires footing == Torn ==>
               var place, line := total + |Encode(text)|, Encode(DoneLine(r));
               && before in {Intact, Torn}
               && |Overlay(file, place, Stamped(total, |Encode(text)|, line)[..k])| < place + |line| + FOOTER
    ensures Rests(Overlay(file, total + |Encode(text)|, Stamped(total, |Encode(text)|, Encode(DoneLine(r)))[..k]),
                  total, text + DoneLine(r), footing)
  {
    hide Encode, DoneLine, Overlay, Stamped, IsFooter, IsTornTail, Stable;
    var t, line := Encode(text), Encode(DoneLine(r));
    var at := total + |t|;
    EncodeConcat(text, DoneLine(r));
    LineLays(file, total, t, line, k);
    if footing == Torn {
      if before == Intact { StableShape(file, total, text); }
      MovedLeavesTail(file, total, |t|, r, k);
    }
  }

  lemma LineLays(file: seq<byte>, total: nat, text: seq<byte>, line: seq<byte>, k: nat)
    requires total + |text| <= |file| && file[total..total + |text|] == text && |line| <= k <= |line| + FOOTER
    ensures var after := Overlay(file, total + |text|, Stamped(total, |text|, line)[..k]);
            total + |text| + |line| <= |after| && after[total..total + |text| + |line|] == text + line
  {
    hide Overlay, FooterBytes;
    var at, data := total + |text|, Stamped(total, |text|, line)[..k];
    var after := Overlay(file, at, data);
    OverlayAt(file, at, data);
    forall i | 0 <= i < |text| + |line|
      ensures after[total + i] == (text + line)[i]
    {
      assert i < |text| ==> file[total..at][i] == file[total + i];
    }
    assert after[total..total + |text| + |line|] == text + line;
  }

  lemma WholeAppendLays(file: seq<byte>, total: nat, text: seq<byte>, line: seq<byte>)
    requires total + |text| <= |file| && file[total..total + |text|] == text
    requires total + |text| + |line| + FOOTER <= U64_MAX
    ensures var after := Overlay(file, total + |text|, Stamped(total, |text|, line));
            && |after| == Max(|file|, total + |text| + |line| + FOOTER)
            && after[total..total + |text| + |line|] == text + line
            && (|after| == total + |text| + |line| + FOOTER ==>
                  IsFooter(after[total + |text| + |line|..], total, |text| + |line|))
  {
    hide Overlay, FooterBytes, IsFooter;
    var b := Stamped(total, |text|, line);
    var at := total + |text|;
    var after := Overlay(file, at, b);
    OverlayAt(file, at, b);
    assert b[..|b|] == b;
    LineLays(file, total, text, line, |b|);
    var f := FooterBytes(total, |text| + |line|);
    FooterBytesAreFooter(total, |text| + |line|);
    assert |after| == at + |b| ==> after[at + |line|..] == f;
  }

  lemma TornAppendRests(file: seq<byte>, total: nat, text: string, r: ByteRange, k: nat, footing: Footing)
    requires Rests(file, total, text, footing) && footing.IsWhole() && 0 < k < |Encode(DoneLine(r))| + FOOTER
    ensures var b := Stamped(total, |Encode(text)|, Encode(DoneLine(r)));
            Rests(Overlay(file, total + |Encode(text)|, b[..k]), total, text, footing.Deeper())
  {
    hide Encode, DoneLine, Overlay, Stamped, IsFooter, IsTornTail, Stable;
    var at := total + |Encode(text)|;
    var b := Stamped(total, |Encode(text)|, Encode(DoneLine(r)))[..k];
    var after := Overlay(file, at, b);
    OverlayAt(file, at, b);
    assert after[total..at] == file[total..at];
    if footing == Intact {
      StableShape(file, total, text);
      TornLeavesTail(file, total, |Encode(text)|, r, k);
    }
  }

  /** Letting go of an append, by a writer that stays or has moved on, however far the append got. */
  lemma ReleaseKeeps(s: Run, step: Step)
    requires ControlInv(s) && Enabled(s, step) && Releases(step)
    ensures ControlInv(Apply(s, step))
  {
    hide Rests, Stamped, DoneLine, Encode, Overlay;
    ReleaseRests(s, Moves(step));
  }

  lemma StepKeepsControl(s: Run, step: Step)
    requires Shape(s) && ControlInv(s) && Enabled(s, step)
    ensures ControlInv(Apply(s, step))
  {
    hide Rests, Stamped, DoneLine, Encode, Overlay, DoRecord, DoLook, DoRead;
    var t := Apply(s, step);
    match step
    case Put(i, n) =>
      PutImproves(s, i, n);
      RestsByTail(Resting(s), Resting(t), |s.resource|, s.text, s.footing);
    case PutControl(n) => PutControlGrows(s, n);
    case Lock(i) =>
      assert Resting(t) == s.file;
      NothingYet(t);
    case Unlock => ReleaseKeeps(s, step);
    case FailControl(_) => ReleaseKeeps(s, step);
    case _ => SameControl(s, step);
  }

  lemma NothingYet(t: Run)
    requires |t.resource| <= |t.file| && t.append.Appending? && t.append.reached == 0
    requires t.append.tail == t.file[|t.resource|..]
    ensures t.file[|t.resource|..] == Overlay(t.append.tail, t.Trailer(), t.Buffer()[..t.append.reached])
  {
    hide Stamped, Encode;
  }

  predicate TouchesFile(step: Step)
  {
    step.Put? || step.PutControl? || step.Lock? || Releases(step)
  }

  predicate SameTrailer(s: Run, t: Run)
  {
    t.file == s.file && t.text == s.text && t.footing == s.footing && t.append == s.append && t.resource == s.resource
  }

  lemma SameControl(s: Run, step: Step)
    requires Enabled(s, step) && !TouchesFile(step)
    ensures SameTrailer(s, Apply(s, step))
  {
    hide Stamped, Encode, Overlay;
  }

  lemma PutControlImproves(s: Run, n: nat)
    requires ControlInv(s) && Enabled(s, PutControl(n))
    ensures Improves(s.file, Apply(s, PutControl(n)).file, s.resource)
  {
    hide Stable, Stamped, DoneLine, Encode, Overlay;
    var t := Apply(s, PutControl(n));
    PutControlGrows(s, n);
    forall x | 0 <= x < |s.resource|
      ensures t.file[x] == s.file[x]
    {
      assert t.file[x] == t.file[..|s.resource|][x];
      assert s.file[x] == s.file[..|s.resource|][x];
    }
  }

  lemma StepKeepsChunksGood(s: Run, step: Step)
    requires Shape(s) && ControlInv(s) && ChunksGood(s) && Enabled(s, step)
    ensures ChunksGood(Apply(s, step))
  {
    hide Stable, Stamped, DoneLine, Encode, Overlay, ControlInv;
    var t := Apply(s, step);
    if step.Put? {
      PutImproves(s, step.i, step.n);
    } else {
      if step.PutControl? {
        PutControlImproves(s, step.n);
        GoodImproves(s.file, t.file, s.resource, []);
      }
      ReachesNoFurther(s, step);
    }
  }

  lemma ReachesNoFurther(s: Run, step: Step)
    requires Shape(s) && Enabled(s, step) && !step.Put?
    ensures var t := Apply(s, step);
            && t.ranges == s.ranges && t.resource == s.resource && |t.fetchers| == |s.fetchers|
            && (!step.PutControl? ==> t.file == s.file)
            && forall j :: 0 <= j < |s.fetchers| ==> Reached(t.fetchers[j]) <= Reached(s.fetchers[j])
  {
    hide Apply, Enabled, Shape;
    StepFrame(s, step);
    if Subject(s, step).Some? { SubjectReaches(s, step, Subject(s, step).value); }
    if !step.PutControl? { FileStays(s, step); }
  }

  lemma SubjectReaches(s: Run, step: Step, i: nat)
    requires Shape(s) && Enabled(s, step) && !step.Put? && Subject(s, step) == Some(i)
    ensures i < |s.fetchers| == |Apply(s, step).fetchers|
    ensures Reached(Apply(s, step).fetchers[i]) <= Reached(s.fetchers[i])
  {
    hide Stamped, DoneLine, Encode, Overlay, Tiles, ContiguousRun;
    if !Releases(step) { assert ShapeAt(s, i); }
  }

  lemma FileStays(s: Run, step: Step)
    requires Enabled(s, step) && !step.Put? && !step.PutControl?
    ensures Apply(s, step).file == s.file
  {
    hide Stamped, DoneLine, Encode, ContiguousRun;
  }

  lemma LockIsTruthful(s: Run, i: nat)
    requires Shape(s) && ChunksGood(s) && Truthful(s) && Enabled(s, Lock(i))
    ensures Truthful(Apply(s, Lock(i)))
  {
    hide Encode, Stamped, NotesIn, Recorded, Tiles;
    ShapeFacts(s);
    assert ShapeAt(s, i);
    assert Good(s.file, s.resource, s.ranges[i].start, Reached(s.fetchers[i]));
  }

  lemma ReleaseIsTruthful(s: Run, step: Step)
    requires Truthful(s) && Enabled(s, step) && Releases(step)
    ensures Truthful(Apply(s, step))
  {
    hide Encode, Stamped, NotesIn, DoneLine, Good;
    var t := Apply(s, step);
    forall r | r in NotesIn(t.text).done
      ensures Good(t.file, t.resource, r.start, Min(r.end, |t.resource|))
    {
      if t.text != s.text { AppendAddsOnly(s.text, s.append.range, r); }
    }
  }

  lemma StepKeepsTruthful(s: Run, step: Step)
    requires Shape(s) && ControlInv(s) && ChunksGood(s) && Truthful(s) && Enabled(s, step)
    ensures Truthful(Apply(s, step))
  {
    hide Stable, Stamped, DoneLine, Encode, Overlay, ControlInv, NotesIn, Shape, ChunksGood;
    var t := Apply(s, step);
    match step
    case Put(i, n) =>
      PutImproves(s, i, n);
      GoodImproves(s.file, t.file, s.resource, NotesIn(s.text).done);
    case PutControl(n) =>
      PutControlImproves(s, n);
      GoodImproves(s.file, t.file, s.resource, NotesIn(s.text).done);
    case Lock(i) => LockIsTruthful(s, i);
    case Unlock => ReleaseIsTruthful(s, step);
    case FailControl(_) => ReleaseIsTruthful(s, step);
    case _ => SameControl(s, step);
  }

  // ----- the verifier

  /** The hash is at or before the frontier, and a verifier without a permit has missed nothing. None of it is about
      what the bytes are. */
  ghost predicate Paced(s: Run)
  {
    && |s.hashed| <= s.Frontier() && |s.hashed| <= |s.resource|
    && (s.failed ==> s.driven)
    && (s.driven && !s.failed ==> forall j :: 0 <= j < |s.fetchers| ==> s.fetchers[j].phase == Finished)
    && match s.verifier
       case Looking => true
       case Reading(f) => |s.hashed| < f <= s.Frontier() && (!s.permit ==> f == s.Frontier() && !s.failed)
       case Waiting => |s.hashed| < |s.resource| && (!s.permit ==> |s.hashed| == s.Frontier() && !s.failed)
       case Returned(ok) => ok ==> |s.hashed| == |s.resource|
  }

  /** ... and the hash holds exactly a prefix of the resource. */
  ghost predicate Sweep(s: Run)
  {
    Paced(s) && s.hashed == s.resource[..|s.hashed|]
  }

  /** Everything below the frontier is in the file. */
  lemma FrontierIsGood(s: Run)
    requires Shape(s) && ChunksGood(s) && |s.resource| <= |s.file|
    ensures Good(s.file, s.resource, 0, s.Frontier())
  {
    ShapeFacts(s);
    FrontierIsFirstHole(s.received, s.ranges, 0, |s.resource|);
    forall x | 0 <= x < s.Frontier()
      ensures s.file[x] == s.resource[x]
    {
      assert Received(s.received, s.ranges, x);
      var i :| 0 <= i < |s.ranges| && s.ranges[i].start <= x < s.ranges[i].start + s.received[i];
      assert ShapeAt(s, i);
      assert Good(s.file, s.resource, s.ranges[i].start, Reached(s.fetchers[i]));
    }
  }

  lemma AllFinished(s: Run)
    requires Shape(s) && forall j :: 0 <= j < |s.fetchers| ==> s.fetchers[j].phase == Finished
    ensures s.Frontier() == |s.resource|
  {
    forall i | 0 <= i < |s.ranges|
      ensures s.received[i] == s.ranges[i].Len()
    {
      assert ShapeAt(s, i);
    }
    ShapeFacts(s);
    FrontierAtTheEnd(s.received, s.ranges, |s.resource|);
  }

  lemma ReceivedGrows(s: Run, step: Step)
    requires Shape(s) && Enabled(s, step)
    ensures var t := Apply(s, step);
            && t.resource == s.resource && t.ranges == s.ranges && |t.received| == |s.received|
            && (!step.Record? ==> t.received == s.received)
            && forall i :: 0 <= i < |s.ranges| ==> s.received[i] <= t.received[i]
  {
    hide Apply, Enabled;
    StepFrame(s, step);
    if step.Record? { RecordGrows(s, step.i, step.due); }
  }

  lemma RecordGrows(s: Run, i: nat, due: bool)
    requires Shape(s) && Enabled(s, Record(i, due))
    ensures i < |s.received| == |Apply(s, Record(i, due)).received|
    ensures s.received[i] <= Apply(s, Record(i, due)).received[i]
  {
    hide Stamped, Encode, Tiles;
    assert ShapeAt(s, i);
  }

  lemma StepRaisesFrontier(s: Run, step: Step)
    requires Shape(s) && Enabled(s, step)
    ensures s.Frontier() <= Apply(s, step).Frontier() <= |s.resource|
  {
    hide Stamped, Overlay, DoneLine, ContiguousRun, Apply, Enabled;
    var t := Apply(s, step);
    ReceivedGrows(s, step);
    StepKeepsShape(s, step);
    ShapeFacts(s);
    ShapeFacts(t);
    FrontierGrows(s.received, t.received, s.ranges, |s.resource|);
  }

  lemma StepKeepsPaced(s: Run, step: Step)
    requires Shape(s) && Paced(s) && Enabled(s, step)
    ensures Paced(Apply(s, step))
  {
    hide Stamped, Overlay, DoneLine, ContiguousRun, Paced, Apply, Encode;
    StepRaisesFrontier(s, step);
    ReceivedGrows(s, step);
    match step
    case ReadSome(n) => ReadKeepsPaced(s, n);
    case Look => LookKeepsPaced(s);
    case _ => OthersKeepPaced(s, step);
  }

  lemma ReadKeepsPaced(s: Run, n: nat)
    requires Shape(s) && Paced(s) && Enabled(s, ReadSome(n))
    ensures Paced(Apply(s, ReadSome(n)))
  {
    hide ContiguousRun, Shape;
    ShapeFacts(s);
  }

  lemma LookKeepsPaced(s: Run)
    requires Shape(s) && Paced(s) && Enabled(s, Look)
    ensures Paced(Apply(s, Look))
  {
    hide ContiguousRun, Shape;
    ShapeFacts(s);
  }

  lemma OthersKeepPaced(s: Run, step: Step)
    requires Shape(s) && Enabled(s, step) && Paced(s) && !step.ReadSome? && step != Look
    requires s.Frontier() <= Apply(s, step).Frontier()
    requires !step.Record? ==> Apply(s, step).received == s.received
    ensures Paced(Apply(s, step))
  {
    hide Stamped, Overlay, DoneLine, ContiguousRun;
    match step
    case Record(i, due) =>
    case Put(i, n) =>
    case PutControl(n) =>
    case _ =>
  }

  lemma StepKeepsSweep(s: Run, step: Step)
    requires Shape(s) && ChunksGood(s) && |s.resource| <= |s.file| && Sweep(s) && Enabled(s, step)
    ensures Sweep(Apply(s, step))
  {
    hide Paced, ChunksGood, Shape, Apply, Enabled;
    StepKeepsPaced(s, step);
    if step.ReadSome? { SweepReads(s, step.n); } else { HashStays(s, step); }
  }

  lemma SweepReads(s: Run, n: nat)
    requires Shape(s) && ChunksGood(s) && |s.resource| <= |s.file| && Sweep(s) && Enabled(s, ReadSome(n))
    ensures var t := Apply(s, ReadSome(n));
            && t.resource == s.resource && |t.hashed| == |s.hashed| + n <= |s.resource|
            && t.hashed == s.resource[..|t.hashed|]
  {
    hide ContiguousRun, ChunksGood, Shape;
    FrontierIsGood(s);
    var h := |s.hashed|;
    ShapeFacts(s);
    assert s.file[h..h + n] == s.resource[h..h + n];
    assert s.resource[..h + n] == s.resource[..h] + s.resource[h..h + n];
  }

  lemma HashStays(s: Run, step: Step)
    requires Enabled(s, step) && !step.ReadSome?
    ensures var t := Apply(s, step); t.hashed == s.hashed && t.resource == s.resource
  {
    hide Apply, Enabled;
    if Streams(step) {
      StreamFrame(s, step);
    } else if step.Record? {
      RecordFrame(s, step);
    } else if Appends(step) {
      AppendFrame(s, step);
    } else {
      SweepKeepsHash(s, step);
    }
  }

  lemma SweepKeepsHash(s: Run, step: Step)
    requires Enabled(s, step) && !Streams(step) && !Appends(step) && !step.Record? && !step.ReadSome?
    ensures var t := Apply(s, step); t.hashed == s.hashed && t.resource == s.resource
  {
    hide Enabled, DoLook;
    LookFrame(s);
  }

  // ----- order and the lock

  /** The lock's holder is a chunk with something to append, and what it appends is its own prefix. */
  ghost predicate Locked(s: Run)
  {
    s.append.Appending? && !s.driven ==>
      && s.append.owner < |s.fetchers| && s.append.owner < |s.ranges|
      && s.fetchers[s.append.owner].phase in {Checkpointing, Closing}
      && s.append.range.start == s.ranges[s.append.owner].start
      && s.append.range.end == s.fetchers[s.append.owner].offset
  }

  lemma StepKeepsLocked(s: Run, step: Step)
    requires Shape(s) && Locked(s) && Enabled(s, step)
    ensures Locked(Apply(s, step))
  {
    hide Stamped, Overlay, DoneLine, ContiguousRun, Apply, Shape;
    StepFrame(s, step);
    if step.Lock? {
      LockKeepsLocked(s, step.i);
    } else {
      LockStays(s, step);
    }
  }

  /** The same append is still under way. */
  predicate SameAppend(s: Run, t: Run)
    requires t.append.Appending?
  {
    s.append.Appending? && !s.driven && t.append.owner == s.append.owner && t.append.range == s.append.range
  }

  /** The lock is with a chunk that has something to append. */
  predicate Held(s: Run)
  {
    && !s.driven && s.append.Appending? && s.append.owner < |s.fetchers|
    && s.fetchers[s.append.owner].phase in {Checkpointing, Closing}
  }

  lemma LockStays(s: Run, step: Step)
    requires Enabled(s, step) && !step.Lock?
    ensures var t := Apply(s, step); t.append.Appending? && !t.driven ==> SameAppend(s, t)
    ensures Held(s) && !Releases(step) ==> Subject(s, step) != Some(s.append.owner)
    ensures Releases(step) ==> Apply(s, step).append == Unlocked
  {
    hide Stamped, Overlay, DoneLine, ContiguousRun, Encode;
  }

  lemma LockKeepsLocked(s: Run, i: nat)
    requires Shape(s) && Enabled(s, Lock(i))
    ensures Locked(Apply(s, Lock(i)))
  {
    hide Tiles, Encode;
    assert ShapeAt(s, i);
  }

  /** Chunks start in order; a resumed run starts one only when all before it are finished. */
  ghost predicate Ordered(s: Run)
  {
    && |s.fetchers| == |s.ranges| == |s.credit|
    && (forall i, j :: 0 <= i < j < |s.fetchers| && s.fetchers[j].phase != Queued ==>
          s.fetchers[i].phase != Queued && (s.resumed ==> s.fetchers[i].phase == Finished))
    && (forall i :: 0 <= i < |s.fetchers| && s.fetchers[i].phase == Queued ==>
          s.fetchers[i].offset == s.ranges[i].start + s.credit[i] && s.fetchers[i].attempt == 0)
  }

  lemma StepKeepsOrdered(s: Run, step: Step)
    requires Shape(s) && Locked(s) && Ordered(s) && Enabled(s, step)
    ensures Ordered(Apply(s, step))
  {
    hide Stamped, Overlay, DoneLine, ContiguousRun;
    var t := Apply(s, step);
    PhasesMove(s, step);
    forall i, j | 0 <= i < j < |t.fetchers| && t.fetchers[j].phase != Queued
      ensures t.fetchers[i].phase != Queued && (t.resumed ==> t.fetchers[i].phase == Finished)
    {
      if step.Begin? && step.i == j {
        assert s.fetchers[i].phase != Queued;
        assert s.resumed ==> !Active(s.fetchers[i]);
      }
    }
  }

  lemma PhasesMove(s: Run, step: Step)
    requires Shape(s) && Locked(s) && Enabled(s, step)
    ensures var t := Apply(s, step);
            && t.resumed == s.resumed && t.credit == s.credit && t.ranges == s.ranges && |t.fetchers| == |s.fetchers|
            && forall i :: 0 <= i < |s.fetchers| ==>
                 && (s.fetchers[i].phase == Finished ==> t.fetchers[i].phase == Finished)
                 && (s.fetchers[i].phase != Queued ==> t.fetchers[i].phase != Queued)
                 && (s.fetchers[i].phase == Queued ==> t.fetchers[i].offset == s.fetchers[i].offset)
                 && (t.fetchers[i].phase == Queued ==> t.fetchers[i].attempt == s.fetchers[i].attempt)
                 && (s.fetchers[i].phase == Queued && t.fetchers[i].phase != Queued ==> step == Begin(i))
  {
    hide Apply, Enabled, Shape;
    StepFrame(s, step);
    if Subject(s, step).Some? { SubjectMoves(s, step, Subject(s, step).value); }
  }

  lemma SubjectMoves(s: Run, step: Step, i: nat)
    requires Locked(s) && Enabled(s, step) && Subject(s, step) == Some(i)
    ensures var t := Apply(s, step);
            && i < |s.fetchers| == |t.fetchers| && s.fetchers[i].phase != Finished && t.fetchers[i].phase != Queued
            && (s.fetchers[i].phase == Queued ==> step == Begin(i) && t.fetchers[i].offset == s.fetchers[i].offset)
  {
    hide Stamped, Overlay, DoneLine, Encode, ContiguousRun;
  }

  // ----- one run, start to end

  /** What a run keeps whatever its file and the resource hold. */
  ghost predicate FlowInv(s: Run)
  {
    Shape(s) && ControlInv(s) && Paced(s) && Locked(s) && Ordered(s)
  }

  /** What a run keeps that starts on a file whose record is true. */
  ghost predicate RunInv(s: Run)
  {
    FlowInv(s) && ChunksGood(s) && Truthful(s) && Layered(s) && Sweep(s)
  }

  lemma StepKeepsFlow(s: Run, step: Step)
    requires FlowInv(s) && Enabled(s, step)
    ensures FlowInv(Apply(s, step)) && Apply(s, step).resource == s.resource
  {
    hide Shape, ControlInv, Paced, Locked, Ordered, Enabled, Apply;
    StepKeepsShape(s, step);
    StepKeepsControl(s, step);
    StepKeepsPaced(s, step);
    StepKeepsLocked(s, step);
    StepKeepsOrdered(s, step);
    ReceivedGrows(s, step);
  }

  lemma StepKeepsRun(s: Run, step: Step)
    requires RunInv(s) && Enabled(s, step)
    ensures RunInv(Apply(s, step)) && Apply(s, step).resource == s.resource
  {
    hide Shape, ControlInv, ChunksGood, Truthful, Layered, Sweep, Locked, Ordered, Enabled, Apply;
    RunSizes(s);
    StepKeepsFlow(s, step);
    StepKeepsChunksGood(s, step);
    StepKeepsTruthful(s, step);
    StepKeepsLayered(s, step);
    StepKeepsSweep(s, step);
  }

  lemma RunSizes(s: Run)
    requires Shape(s) && ControlInv(s)
    ensures |s.fetchers| == |s.ranges| == |s.credit| && |s.resource| <= |s.file|
  {}

  lemma RunSizesOf(s: Run)
    requires Shape(s)
    ensures |s.fetchers| == |s.ranges| == |s.credit|
  {}

  /** A readable record is true of `origin`. */
  ghost predicate Trusted(file: seq<byte>, origin: seq<byte>)
  {
    match ReadOf(file)
    case None => true
    case Some(control) => control.total == |origin| ==> |origin| <= |file| && Recorded(file, origin, control.notes.done)
  }

  /** Whatever the moment of the interruption, unless an append lies past a lost line or over the remains of two,
      the file left behind is to be trusted. */
  lemma InterruptedIsTrusted(s: Run)
    requires RunInv(s) && !s.IsMisled()
    ensures Trusted(s.file, s.resource)
  {
    hide Shape, ChunksGood, Paced, Sweep, Locked, Ordered, ControlInv, Truthful, Layered, Trusted;
    ReachableIsTrusted(s);
  }

  lemma ReachableIsTrusted(s: Run)
    requires ControlInv(s) && Truthful(s) && Layered(s) && !s.IsMisled()
    ensures Trusted(s.file, s.resource)
  {
    hide Stamped, Encode, NotesIn, DoneLine, ReadOf, Rests, Recorded;
    if s.append.Appending? { AppendedFile(s); }
    if s.append == Unlocked || s.append.reached == 0 {
      if s.footing in {Intact, Torn} { RestingIsTrusted(s, s.text, s.footing); }
    } else if s.footing == Intact {
      FirstIsTrusted(s);
    } else {
      SecondIsTrusted(s);
    }
  }

  lemma RestingIsTrusted(s: Run, text: string, footing: Footing)
    requires |s.resource| <= |s.file| && Recorded(s.file, s.resource, NotesIn(text).done)
    requires Rests(s.file, |s.resource|, text, footing) && footing in {Intact, Torn}
    ensures Trusted(s.file, s.resource)
  {
    hide Encode, NotesIn, ReadOf, Stable;
    if footing == Intact { StableReads(s.file, |s.resource|, text); } else { OffMagicUnreadable(s.file); }
  }

  /** An append over an intact footer, however far it got. */
  lemma FirstIsTrusted(s: Run)
    requires ControlInv(s) && Truthful(s) && s.append.Appending? && s.append.reached > 0 && s.footing == Intact
    ensures Trusted(s.file, s.resource)
  {
    hide Stamped, Encode, NotesIn, DoneLine, ReadOf, IsTornTail, HasText, Stable, Overlay;
    var whole := s.append.reached == |s.Buffer()|;
    ReleaseRests(s, whole);
    AppendedFile(s);
    StableShape(Resting(s), |s.resource|, s.text);
    OverlayAt(Resting(s), |s.resource| + s.Trailer(), s.Buffer()[..s.append.reached]);
    forall x | x in NotesIn(s.TextAfter(whole)).done
      ensures Good(s.file, s.resource, x.start, Min(x.end, |s.resource|))
    {
      if whole { AppendAddsOnly(s.text, s.append.range, x); }
    }
    RestingIsTrusted(s, s.TextAfter(whole), s.FootingAfter(whole));
  }

  /** An append over what one failed append left, however far either got. */
  lemma SecondIsTrusted(s: Run)
    requires ControlInv(s) && Truthful(s) && s.append.Appending? && s.append.reached > 0 && s.footing == Torn
    ensures Trusted(s.file, s.resource)
  {
    hide Stamped, Encode, NotesIn, DoneLine, ReadOf, IsTornTail, Overlay;
    var total := |s.resource|;
    AppendedFile(s);
    if ReadOf(s.file).Some? && ReadOf(s.file).value.total == total {
      forall x | x in ReadOf(s.file).value.notes.done
        ensures Good(s.file, s.resource, x.start, Min(x.end, total))
      {
        SecondAppendIsSafe(Resting(s), total, s.text, s.append.range, s.append.reached, x);
      }
    }
  }

  lemma TrustedByTail(a: seq<byte>, b: seq<byte>, resource: seq<byte>)
    requires |resource| + FOOTER <= |a| == |b| && Improves(a, b, resource)
    requires a[|resource|..] == b[|resource|..] && Trusted(a, resource)
    ensures Trusted(b, resource)
  {
    hide ReadOf, Stable, NotesIn;
    if ReadOf(b).Some? && ReadOf(b).value.total == |resource| {
      var text := ReadableIsStable(b);
      StableByTail(b, a, |resource|, text);
      StableReads(a, |resource|, text);
      GoodImproves(a, b, resource, NotesIn(text).done);
    }
  }

  lemma StableByTail(a: seq<byte>, b: seq<byte>, total: nat, text: string)
    requires total + FOOTER <= |a| == |b| && a[total..] == b[total..] && Stable(a, total, text)
    ensures Stable(b, total, text)
  {
    StableRests(a, total, text);
    RestsByTail(a, b, total, text, Intact);
  }

  lemma StableRests(file: seq<byte>, total: nat, text: string)
    requires Stable(file, total, text)
    ensures Rests(file, total, text, Intact) && total + FOOTER <= |file|
  {}

  /** Two appends neither of which covered what the first left, or a lost line with nothing put down since: the file
      is still to be trusted. */
  ghost predicate Layered(s: Run)
  {
    |s.resource| <= |s.file| && (s.footing in {Overlaid, Gapped} ==> Trusted(Resting(s), s.resource))
  }

  lemma StepKeepsLayered(s: Run, step: Step)
    requires Shape(s) && ControlInv(s) && Truthful(s) && Layered(s) && Enabled(s, step)
    ensures Layered(Apply(s, step))
  {
    hide Stamped, DoneLine, Encode, Overlay, Rests, Trusted, NotesIn, Shape, Truthful;
    var t := Apply(s, step);
    match step
    case Put(i, n) =>
      PutImproves(s, i, n);
      RestingImproves(s, t);
      if s.footing in {Overlaid, Gapped} { TrustedByTail(Resting(s), Resting(t), s.resource); }
    case PutControl(n) => PutControlGrows(s, n);
    case Lock(i) => assert Resting(t) == s.file;
    case Unlock => ReleaseLayers(s, step);
    case FailControl(_) => ReleaseLayers(s, step);
    case _ => SameControl(s, step);
  }

  lemma RestingImproves(s: Run, t: Run)
    requires Improves(s.file, t.file, s.resource) && t.resource == s.resource && t.append == s.append
    requires |t.file| == |s.file| && t.file[|s.resource|..] == s.file[|s.resource|..]
    ensures |Resting(t)| == |Resting(s)| && Improves(Resting(s), Resting(t), s.resource)
    ensures Resting(t)[|s.resource|..] == Resting(s)[|s.resource|..]
  {}

  lemma ReleaseLayers(s: Run, step: Step)
    requires ControlInv(s) && Truthful(s) && Layered(s) && Enabled(s, step) && Releases(step)
    ensures Layered(Apply(s, step))
  {
    hide Stamped, DoneLine, Encode, Overlay, Rests, Trusted, NotesIn, Truthful, Good;
    AppendedFile(s);
    if !s.IsMisled() { ReachableIsTrusted(s); }
  }

  lemma NothingPut(file: seq<byte>, at: nat, data: seq<byte>)
    ensures Overlay(file, at, data[..0]) == file
  {}

  lemma AppendInRoom(s: Run)
    requires ControlInv(s) && s.append.Appending? && s.footing.IsWhole()
    ensures |s.resource| + s.Trailer() + |s.Buffer()| <= U64_MAX && |s.resource| + s.Trailer() <= |Resting(s)|
  {
    hide Encode, IsFooter, Stable, Overlay, IsTornTail;
    AppendedFile(s);
    OverlayAt(Resting(s), |s.resource| + s.Trailer(), s.Buffer()[..s.append.reached]);
    DoneLineBytes(s.append.range);
    DoneLineIsShort(s.append.range);
  }

  // ----- any number of steps

  /** `t` is reached from `s` by taking `steps`, each of them enabled. */
  ghost predicate RunsTo(s: Run, steps: seq<Step>, t: Run)
    decreases |steps|
  {
    if steps == [] then s == t else Enabled(s, steps[0]) && RunsTo(Apply(s, steps[0]), steps[1..], t)
  }

  lemma {:induction false} RunsOn(s: Run, a: seq<Step>, t: Run, b: seq<Step>, u: Run)
    requires RunsTo(s, a, t) && RunsTo(t, b, u)
    ensures RunsTo(s, a + b, u)
    decreases |a|
  {
    hide Enabled, Apply;
    if a == [] {
      assert a + b == b;
    } else {
      RunsOn(Apply(s, a[0]), a[1..], t, b, u);
      assert (a + b)[1..] == a[1..] + b && (a + b)[0] == a[0];
    }
  }

  lemma OneStep(s: Run, step: Step)
    requires Enabled(s, step)
    ensures RunsTo(s, [step], Apply(s, step))
  {
    hide Enabled, Apply;
    assert [step][1..] == [];
  }

  lemma {:induction false} RunsKeepFlow(s: Run, steps: seq<Step>, t: Run)
    requires FlowInv(s) && RunsTo(s, steps, t)
    ensures FlowInv(t) && t.resource == s.resource
    decreases |steps|
  {
    hide Enabled, Apply, FlowInv;
    if steps != [] {
      StepKeepsFlow(s, steps[0]);
      RunsKeepFlow(Apply(s, steps[0]), steps[1..], t);
    }
  }

  lemma {:induction false} RunsKeepInvariant(s: Run, steps: seq<Step>, t: Run)
    requires RunInv(s) && RunsTo(s, steps, t)
    ensures RunInv(t) && t.resource == s.resource
    decreases |steps|
  {
    hide Enabled, Apply, RunInv;
    if steps != [] {
      StepKeepsRun(s, steps[0]);
      RunsKeepInvariant(Apply(s, steps[0]), steps[1..], t);
    }
  }
}
