/** The scatter download's promises over whole histories: any runs, chunk counts, interleavings and interruptions. */
module ScatterSafety {
  import opened Common
  import opened Text
  import opened Plan
  import opened ControlFile
  import opened ControlLaws
  import opened Engine
  import opened EngineLaws

  /** What is kept whatever files and resources hold. */
  ghost predicate WorldFlow(w: World)
  {
    && |FileOf(w)| <= MAX_FILE
    && (w.Creating? ==> CreatingInv(w))
    && (w.Scattering? ==> FlowInv(w.run))
  }

  /** What is kept from a creation on, while no file with a mishap is resumed. */
  ghost predicate WorldInv(w: World)
  {
    && WorldFlow(w)
    && match w
       case Idle(file, origin, mishaps) => mishaps != {} || Trusted(file, origin)
       case Creating(_, _, _, _) => IsPlain(w)
       case Scattering(run) => RunInv(run)
       case Complete(file, resource, hashed) => file == resource && hashed == resource
  }

  ghost predicate CreatingInv(w: World)
    requires w.Creating?
  {
    && |w.probe.resource| <= MAX_FILE && w.reached <= |Seed(w)|
    && ((w.file == [] && w.reached == 0)
        || w.file == Overlay(Zeros(|w.probe.resource|), |w.probe.resource|, Seed(w)[..w.reached]))
  }

  // ----- starting a run

  lemma CreditIsGood(file: seq<byte>, resource: seq<byte>, done: seq<ByteRange>, chunk: ByteRange, credit: nat)
    requires |resource| <= |file| && Recorded(file, resource, done) && IsCredit(chunk, done, credit)
    requires chunk.start < chunk.end <= |resource|
    ensures Good(file, resource, chunk.start, chunk.start + credit)
  {
    forall x: nat | chunk.start <= x < chunk.start + credit
      ensures file[x] == resource[x]
    {
      assert Covered(done, x);
      var r :| r in done && r.start <= x < r.end;
      assert Good(file, resource, r.start, Min(r.end, |resource|));
    }
  }

  ghost predicate Credited(ranges: seq<ByteRange>, credit: seq<nat>, done: seq<ByteRange>)
  {
    |credit| == |ranges| && forall i :: 0 <= i < |ranges| ==> credit[i] == 0 || IsCredit(ranges[i], done, credit[i])
  }

  lemma StartShape(s: Run, probe: Probe, options: Options, text: string)
    requires |probe.resource| <= MAX_FILE && |s.credit| == |s.ranges| && Tiles(s.ranges, 0, |probe.resource|)
    requires s == StartRun(probe, options, s.ranges, s.credit, s.resumed, s.file, text)
    requires Credited(s.ranges, s.credit, NotesIn(text).done)
    ensures Shape(s) && Ordered(s)
  {
    hide NotesIn, IsCredit;
    forall i | 0 <= i < |s.ranges|
      ensures ShapeAt(s, i)
    {
      TileEnds(s.ranges, 0, |probe.resource|, i);
      CreditFits(s.ranges[i], NotesIn(text).done, s.credit[i]);
    }
  }

  lemma CreditFits(chunk: ByteRange, done: seq<ByteRange>, credit: nat)
    requires credit == 0 || IsCredit(chunk, done, credit)
    ensures credit <= chunk.Len()
  {}

  lemma StartChunksGood(s: Run)
    requires Shape(s) && |s.resource| <= |s.file|
    requires forall i :: 0 <= i < |s.fetchers| ==> s.fetchers[i] == StartFetcher(s.ranges[i], s.credit[i])
    requires Recorded(s.file, s.resource, NotesIn(s.text).done) && Credited(s.ranges, s.credit, NotesIn(s.text).done)
    ensures ChunksGood(s)
  {
    hide NotesIn, IsCredit, Recorded, Good, Tiles, Credited, ContiguousRun;
    var done := NotesIn(s.text).done;
    NonemptyTiles(s.ranges, |s.resource|);
    forall i | 0 <= i < |s.ranges|
      ensures Good(s.file, s.resource, s.ranges[i].start, Reached(s.fetchers[i]))
    {
      TileEnds(s.ranges, 0, |s.resource|, i);
      ChunkStartsGood(s.file, s.resource, done, s.ranges, s.credit, i);
    }
  }

  lemma NonemptyTiles(ranges: seq<ByteRange>, total: nat)
    requires Tiles(ranges, 0, total)
    ensures forall i :: 0 <= i < |ranges| ==> ranges[i].start < ranges[i].end
  {}

  lemma ChunkStartsGood(file: seq<byte>, resource: seq<byte>, done: seq<ByteRange>, ranges: seq<ByteRange>,
                        credit: seq<nat>, i: nat)
    requires |resource| <= |file| && Recorded(file, resource, done) && Credited(ranges, credit, done) && i < |ranges|
    requires ranges[i].start < ranges[i].end <= |resource|
    ensures i < |credit| && Good(file, resource, ranges[i].start, ranges[i].start + credit[i])
  {
    hide IsCredit, Recorded;
    if credit[i] > 0 { CreditIsGood(file, resource, done, ranges[i], credit[i]); }
  }

  lemma StartsFlow(s: Run, probe: Probe, options: Options, text: string)
    requires |probe.resource| <= MAX_FILE && s.ranges == PlanOf(0, |probe.resource|, options.parts)
    requires |s.credit| == |s.ranges|
    requires s == StartRun(probe, options, s.ranges, s.credit, s.resumed, s.file, text)
    requires Stable(s.file, |probe.resource|, text) && |s.file| <= MAX_FILE
    requires Credited(s.ranges, s.credit, NotesIn(text).done)
    ensures FlowInv(s)
  {
    hide Stable, NotesIn, PlanOf, ContiguousRun, Shape, Ordered, Credited, Tiles;
    PlanTilesEvenly(0, |probe.resource|, options.parts);
    StableRests(s.file, |probe.resource|, text);
    StartShape(s, probe, options, text);
    RunSizesOf(s);
  }

  lemma StartsWell(s: Run, probe: Probe, options: Options, text: string)
    requires |probe.resource| <= MAX_FILE && s.ranges == PlanOf(0, |probe.resource|, options.parts)
    requires |s.credit| == |s.ranges|
    requires s == StartRun(probe, options, s.ranges, s.credit, s.resumed, s.file, text)
    requires Stable(s.file, |probe.resource|, text) && |s.file| <= MAX_FILE
    requires Recorded(s.file, probe.resource, NotesIn(text).done)
    requires Credited(s.ranges, s.credit, NotesIn(text).done)
    ensures RunInv(s) && FlowInv(s)
  {
    hide Stable, NotesIn, PlanOf, Shape, ControlInv, Paced, Locked, Ordered, ChunksGood, Credited, Recorded;
    StartsFlow(s, probe, options, text);
    StableShape(s.file, |probe.resource|, text);
    RunSizesOf(s);
    StartChunksGood(s);
    FlowIsPaced(s);
  }

  lemma FlowIsPaced(s: Run)
    requires FlowInv(s)
    ensures Paced(s)
  {
    hide Shape, ControlInv, Paced, Locked, Ordered;
  }

  lemma NewFileFlows(w: World, w': World)
    requires WorldFlow(w) && Opens(w, w')
    ensures WorldFlow(w') && |w'.run.ranges| == |w'.run.credit|
    ensures Stable(w.file, |w.probe.resource|, Header(w.probe.source, w.probe.validator, w.options.checksum))
  {
    hide Stable, NotesIn, PlanOf, Overlay, Header, Encode, FlowInv;
    var total := |w.probe.resource|;
    var header := Header(w.probe.source, w.probe.validator, w.options.checksum);
    SeedIsWhole(w);
    OverlayTail(Zeros(total), total, Seed(w));
    CreatedStable(total, header);
    assert Zeros(total)[..total] == Zeros(total);
    assert w.file == Zeros(total) + Stamped(total, 0, Encode(header));
    StartsFlow(w'.run, w.probe, w.options, header);
  }

  lemma NewFileStartsWell(w: World, w': World)
    requires WorldFlow(w) && IsPlain(w) && Opens(w, w')
    ensures WorldInv(w')
  {
    hide Stable, NotesIn, PlanOf, Overlay, Header, Encode, RunInv, FlowInv, Quiet, DoneRanges, Lines;
    var header := Header(w.probe.source, w.probe.validator, w.options.checksum);
    NewFileFlows(w, w');
    HeaderIsQuiet(w.probe.source, w.probe.validator, w.options.checksum);
    QuietRecordsNothing(header);
    NotedNothing(header);
    StableShape(w.file, |w.probe.resource|, header);
    StartsWell(w'.run, w.probe, w.options, header);
  }

  lemma SeedIsWhole(w: World)
    requires w.Creating? && CreatingInv(w) && w.reached == |Seed(w)|
    ensures w.file == Overlay(Zeros(|w.probe.resource|), |w.probe.resource|, Seed(w))
  {
    hide Encode, Header;
    assert Seed(w)[..w.reached] == Seed(w);
    assert |Seed(w)| >= FOOTER;
  }

  lemma CreatedStable(total: nat, header: string)
    requires total + |Encode(header)| + FOOTER <= U64_MAX
    ensures Stable(Zeros(total) + Stamped(total, 0, Encode(header)), total, header)
  {
    hide Encode;
    StampedAtRest(Zeros(total), [], Encode(header));
    assert Zeros(total) + [] == Zeros(total) && [] + Encode(header) == Encode(header);
  }

  lemma NotedNothing(text: string)
    requires DoneRanges(Lines(text)) == []
    ensures NotesIn(text).done == []
  {
    NotedRanges(NO_NOTES, Lines(text));
  }

  lemma ResumedFlows(w: World, w': World, probe: Probe, options: Options, ranges: seq<ByteRange>,
                     received: seq<nat>, text: string)
    requires WorldFlow(w) && w.Idle? && |probe.resource| <= MAX_FILE
    requires Decides(w.file, |probe.resource|, probe.validator, options, Resume(ranges, received))
    requires |ranges| == |received| && Reopens(w, w', probe, options, ranges, received, text)
    ensures WorldFlow(w')
  {
    hide NotesIn, PlanOf, Stable, FlowInv;
    StableReads(w.file, |probe.resource|, text);
    StartsFlow(w'.run, probe, options, text);
  }

  lemma ResumedStartsWell(w: World, w': World, probe: Probe, options: Options, ranges: seq<ByteRange>,
                          received: seq<nat>, text: string)
    requires WorldInv(w) && w.Idle? && w.mishaps == {} && |probe.resource| <= MAX_FILE
    requires probe.resource == w.origin
    requires Decides(w.file, |probe.resource|, probe.validator, options, Resume(ranges, received))
    requires |ranges| == |received| && Reopens(w, w', probe, options, ranges, received, text)
    ensures WorldInv(w')
  {
    hide NotesIn, PlanOf, Stable, RunInv, FlowInv;
    StableReads(w.file, |probe.resource|, text);
    StartsWell(w'.run, probe, options, text);
  }

  /** A run interrupted with its control at rest is taken up again exactly by a resume of the same length whose
      validator does not contradict the recorded one; it skips every chunk the record covers and starts every
      other one at its first missing byte. */
  lemma InterruptedRunResumes(s: Run, probe: Probe, options: Options, d: Decision)
    requires FlowInv(s) && s.append == Unlocked && s.footing == Intact && |probe.resource| <= MAX_FILE
    requires options.resume && Decides(s.file, |probe.resource|, probe.validator, options, d)
    ensures var stored, done := NotesIn(s.text).validator, NotesIn(s.text).done;
            && (d.Resume? <==> |probe.resource| == |s.resource|
                               && (stored == None || probe.validator == None || stored == probe.validator))
            && (d.Fresh? <==> !d.Resume?)
            && (d.Resume? ==> |d.ranges| == |d.received| && forall i :: 0 <= i < |d.ranges| ==>
                  (forall x: nat :: d.ranges[i].start <= x < d.ranges[i].start + d.received[i] ==> Covered(done, x))
                  && (d.received[i] < d.ranges[i].Len() ==> !Covered(done, d.ranges[i].start + d.received[i])))
  {
    hide NotesIn, ReadOf, Stable, PlanOf, Covered, Shape, Paced, Locked, Ordered, Encode;
    StableReads(s.file, |s.resource|, s.text);
  }

  /** A resume is for the origin where the server has not served another resource under the same validator. */
  lemma UnchangedKeepsOrigin(w: World, w': World, probe: Probe, options: Options)
    requires StartsRun(w, w', probe, options) && Unchanged(w.file, w.origin, probe)
    ensures KeepsOrigin(w, w')
  {
    hide ReadOf, PlanOf, Stable, NotesIn, IsCredit;
  }

  // ----- the moments between runs

  lemma CreationIsTrusted(w: World)
    requires w.Creating? && CreatingInv(w) && IsPlain(w)
    ensures Trusted(w.file, w.probe.resource)
  {
    hide ReadOf, Overlay, Header, Encode, Stamped;
    var total := |w.probe.resource|;
    if w.file == [] {
      NothingReads();
    } else if ReadOf(w.file).Some? && ReadOf(w.file).value.total == total {
      assert TornWrite(Zeros(total), total, Seed(w), w.file);
      TornCreateRecordsNothing(w.file, total, w.probe.source, w.probe.validator, w.options.checksum);
    }
  }

  lemma NothingReads()
    ensures ReadOf([]) == None
  {}

  lemma SeedGrows(w: World, w': World, n: nat)
    requires WorldFlow(w) && PutsSeed(w, w', n)
    ensures WorldFlow(w')
  {
    hide Overlay, Header, Encode, Stamped;
    var total := |w.probe.resource|;
    if w.file == [] && w.reached == 0 {
      NothingPut(Zeros(total), total, Seed(w));
      assert w.file == Zeros(total);
    }
    OverlayGrows(Zeros(total), total, Seed(w), w.reached, n);
    OverlayAt(Zeros(total), total, Seed(w)[..w.reached + n]);
  }

  lemma ZerosAreAllocated(w: World)
    requires WorldFlow(w) && w.Creating? && w.reached == 0
    ensures WorldFlow(Creating(Zeros(|w.probe.resource|), w.probe, w.options, 0))
  {
    hide Overlay, Header, Encode, Stamped;
    NothingPut(Zeros(|w.probe.resource|), |w.probe.resource|, Seed(w));
  }

  /** A run that returns success leaves exactly the resource in the data region, and hashed exactly the resource. */
  lemma SuccessIsExact(s: Run)
    requires RunInv(s) && Succeeded(s)
    ensures s.hashed == s.resource && |s.resource| <= |s.file| && s.file[..|s.resource|] == s.resource
  {
    hide ControlInv, Truthful, Layered, Locked, Ordered, ContiguousRun;
    AllFinished(s);
    RunSizes(s);
    FrontierIsGood(s);
    assert s.resource[..|s.resource|] == s.resource;
  }

  lemma InterruptionIsTrusted(w: World)
    requires WorldInv(w)
    ensures WorldInv(Idle(FileOf(w), OriginOf(w), MishapsOf(w)))
  {
    hide ReadOf, RunInv, CreatingInv, Recorded;
    match w
    case Idle(_, _, _) =>
    case Creating(_, _, _, _) => CreationIsTrusted(w);
    case Scattering(run) => if !run.IsMisled() { InterruptedIsTrusted(run); }
    case Complete(file, resource, _) =>
      if ReadOf(file).Some? { FinishedImageIsNotResumed(file, |resource|); }
  }

  // ----- every history

  lemma StartKeepsFlow(w: World, w': World, probe: Probe, options: Options)
    requires WorldFlow(w) && StartsRun(w, w', probe, options)
    ensures WorldFlow(w')
  {
    hide FlowInv, Decides, Header, Encode, Stamped, Overlay, Stable;
    var d :| Decides(w.file, |probe.resource|, probe.validator, options, d) && Begins(w, w', probe, options, d);
    match d
    case Refuse =>
    case Fresh(_) =>
    case Resume(ranges, received) =>
      var text :| Reopens(w, w', probe, options, ranges, received, text);
      ResumedFlows(w, w', probe, options, ranges, received, text);
  }

  /** Starting, creating, resuming whatever file, stepping, finishing and being interrupted. */
  lemma NextKeepsFlow(w: World, w': World)
    requires WorldFlow(w) && Next(w, w')
    ensures WorldFlow(w')
  {
    hide StartsRun, PutsSeed, Opens, Enabled, Apply, FlowInv, CreatingInv;
    if probe, options :| StartsRun(w, w', probe, options) {
      StartKeepsFlow(w, w', probe, options);
    } else if w.Creating? && w.reached == 0 && w' == Creating(Zeros(|w.probe.resource|), w.probe, w.options, 0) {
      ZerosAreAllocated(w);
    } else if n: nat :| PutsSeed(w, w', n) {
      SeedGrows(w, w', n);
    } else if Opens(w, w') {
      NewFileFlows(w, w');
    } else if w.Scattering? && exists step :: Enabled(w.run, step) && w' == Scattering(Apply(w.run, step)) {
      var step :| Enabled(w.run, step) && w' == Scattering(Apply(w.run, step));
      StepKeepsFlow(w.run, step);
      FlowSize(w'.run);
    }
  }

  lemma FlowSize(s: Run)
    requires FlowInv(s)
    ensures |s.file| <= MAX_FILE
  {
    hide Shape, Paced, Locked, Ordered, Rests;
  }

  lemma StartKeepsWorld(w: World, w': World, probe: Probe, options: Options)
    requires WorldInv(w) && StartsRun(w, w', probe, options) && Heeds(w, w') && IsPlain(w')
    ensures WorldInv(w')
  {
    hide RunInv, Decides, Header, Encode, Stamped, Overlay, Trusted, Stable;
    var d :| Decides(w.file, |probe.resource|, probe.validator, options, d) && Begins(w, w', probe, options, d);
    match d
    case Refuse =>
    case Fresh(_) =>
    case Resume(ranges, received) =>
      var text :| Reopens(w, w', probe, options, ranges, received, text);
      ResumedStartsWell(w, w', probe, options, ranges, received, text);
  }

  lemma RunStepKeepsWorld(w: World, step: Step)
    requires WorldInv(w) && w.Scattering? && Enabled(w.run, step)
    ensures WorldInv(Scattering(Apply(w.run, step)))
  {
    hide Apply, Enabled, Shape, ChunksGood, Truthful, Layered, Sweep, Locked, Ordered;
    StepKeepsRun(w.run, step);
  }

  lemma NextKeepsWorld(w: World, w': World)
    requires WorldInv(w) && Next(w, w') && Heeds(w, w') && IsPlain(w')
    ensures WorldInv(w')
  {
    hide WorldInv, WorldFlow, StartsRun, PutsSeed, Opens, Enabled, Apply, RunInv, IsPlain;
    InvIsFlow(w);
    NextKeepsFlow(w, w');
    if probe, options :| StartsRun(w, w', probe, options) {
      StartKeepsWorld(w, w', probe, options);
    } else if w'.Creating? {
      CreatingIsFlow(w');
    } else if Opens(w, w') {
      InvIsPlain(w);
      NewFileStartsWell(w, w');
    } else if w.Scattering? && exists step :: Enabled(w.run, step) && w' == Scattering(Apply(w.run, step)) {
      var step :| Enabled(w.run, step) && w' == Scattering(Apply(w.run, step));
      RunStepKeepsWorld(w, step);
    } else if w' == Idle(FileOf(w), OriginOf(w), MishapsOf(w)) {
      InterruptionIsTrusted(w);
    } else {
      PutsSeedCreates(w, w');
      FinishKeepsWorld(w, w');
    }
  }

  lemma InvIsFlow(w: World)
    requires WorldInv(w)
    ensures WorldFlow(w)
  {
    hide WorldFlow, RunInv, Trusted;
  }

  lemma InvIsPlain(w: World)
    requires WorldInv(w)
    ensures IsPlain(w)
  {
    hide WorldFlow, RunInv, Trusted;
  }

  lemma CreatingIsFlow(w: World)
    requires WorldFlow(w) && w.Creating? && IsPlain(w)
    ensures WorldInv(w)
  {
    hide WorldFlow;
  }

  lemma PutsSeedCreates(w: World, w': World)
    ensures forall n: nat :: PutsSeed(w, w', n) ==> w'.Creating?
  {
    hide Overlay, Header, Encode, Stamped;
  }

  lemma FinishKeepsWorld(w: World, w': World)
    requires WorldInv(w)
    requires (w.Complete? && w' == Idle([], w.resource, {}))
          || (w.Scattering? && Succeeded(w.run) && |w.run.resource| <= |w.run.file|
              && w' == Complete(w.run.file[..|w.run.resource|], w.run.resource, w.run.hashed))
    ensures WorldInv(w')
  {
    hide RunInv, ReadOf;
    if w.Complete? { NothingReads(); } else { SuccessIsExact(w.run); }
  }

  lemma {:induction false} HistoryKeepsFlow(ws: seq<World>, i: nat)
    requires History(ws) && i < |ws|
    ensures WorldFlow(ws[i])
  {
    hide Next, WorldFlow;
    if i == 0 {
      EmptyFlows(ws[0]);
    } else {
      HistoryKeepsFlow(ws, i - 1);
      assert Next(ws[i - 1], ws[i]);
      NextKeepsFlow(ws[i - 1], ws[i]);
    }
  }

  lemma EmptyFlows(w: World)
    requires w.Idle? && w.file == []
    ensures WorldFlow(w)
  {}

  lemma {:induction false} HistoryKeepsWorld(ws: seq<World>, i: nat)
    requires History(ws) && i < |ws| && HeededSince(ws, i)
    ensures WorldInv(ws[i])
  {
    hide Next, WorldFlow, Heeds, IsPlain;
    HistoryKeepsFlow(ws, i);
    assert SameFile(ws, i, i);
    if i == 0 {
      NothingReads();
    } else if !ws[i].Creating? {
      HeededBefore(ws, i);
      HistoryKeepsWorld(ws, i - 1);
      assert Next(ws[i - 1], ws[i]);
      NextKeepsWorld(ws[i - 1], ws[i]);
    }
  }

  lemma HeededBefore(ws: seq<World>, i: nat)
    requires 0 < i < |ws| && HeededSince(ws, i) && !ws[i].Creating?
    ensures HeededSince(ws, i - 1) && Heeds(ws[i - 1], ws[i]) && IsPlain(ws[i])
  {
    hide Heeds, IsPlain;
    assert SameFile(ws, i, i) && SameFile(ws, i - 1, i);
    forall j | 0 <= j <= i - 1 && SameFile(ws, j, i - 1)
      ensures SameFile(ws, j, i)
    {}
  }

  lemma NoMishapIsHeeded(ws: seq<World>)
    requires IsSteady(ws) && forall i :: 0 <= i < |ws| ==> MishapsOf(ws[i]) == {}
    ensures forall i :: 0 <= i < |ws| ==> HeededSince(ws, i)
  {
    hide IsPlain;
  }

  /** Over any sequence of runs with any chunk counts, each interrupted anywhere and with appends failing anywhere:
      what a readable control records is what the resource has, unless an append lies past a line that was lost or
      over the remains of two. */
  lemma RecordsAreTrue(ws: seq<World>, i: nat)
    requires History(ws) && i < |ws| && HeededSince(ws, i) && MishapsOf(ws[i]) == {}
    ensures Trusted(FileOf(ws[i]), OriginOf(ws[i]))
  {
    hide WorldInv, History, ReadOf, Recorded;
    HistoryKeepsWorld(ws, i);
    InterruptionIsTrusted(ws[i]);
    TrustedInv(ws[i]);
  }

  lemma TrustedInv(w: World)
    requires WorldInv(Idle(FileOf(w), OriginOf(w), MishapsOf(w))) && MishapsOf(w) == {}
    ensures Trusted(FileOf(w), OriginOf(w))
  {}

  /** A run that returns success leaves exactly the resource, and its digest is of exactly the resource. */
  lemma DownloadsAreExact(ws: seq<World>, i: nat)
    requires History(ws) && i < |ws| && HeededSince(ws, i) && ws[i].Complete?
    ensures ws[i].file == ws[i].resource == ws[i].hashed
  {
    hide History;
    HistoryKeepsWorld(ws, i);
  }

  // ----- the verifier and the fetchers never get in each other's way

  lemma RunInHistory(ws: seq<World>, i: nat)
    requires History(ws) && i < |ws| && ws[i].Scattering?
    ensures FlowInv(ws[i].run)
    ensures HeededSince(ws, i) ==> RunInv(ws[i].run)
  {
    hide History, FlowInv, RunInv;
    HistoryKeepsFlow(ws, i);
    if HeededSince(ws, i) { HistoryKeepsWorld(ws, i); }
  }

  /** In every reachable state the hash is at or before the frontier, and a verifier that waits without a permit has
      hashed everything there is and has more to come. What it has hashed is a prefix of the resource, unless the file
      was resumed with a mishap. */
  lemma NoLostWakeUp(ws: seq<World>, i: nat)
    requires History(ws) && i < |ws| && ws[i].Scattering?
    ensures var s := ws[i].run;
            && |s.hashed| <= s.Frontier() <= |s.resource|
            && (s.verifier == Waiting && !s.permit ==> |s.hashed| == s.Frontier() < |s.resource| && !s.driven)
            && (HeededSince(ws, i) ==> s.hashed == s.resource[..|s.hashed|])
  {
    hide History, HeededSince;
    RunInHistory(ws, i);
    WaitsOnlyForMore(ws[i].run);
    if HeededSince(ws, i) { HashIsPrefix(ws[i].run); }
  }

  lemma HashIsPrefix(s: Run)
    requires RunInv(s)
    ensures |s.hashed| <= |s.resource| && s.hashed == s.resource[..|s.hashed|]
  {
    hide FlowInv, ChunksGood, Truthful, Layered;
  }

  lemma WaitsOnlyForMore(s: Run)
    requires FlowInv(s)
    ensures |s.hashed| <= s.Frontier() <= |s.resource|
    ensures s.verifier == Waiting && !s.permit ==> |s.hashed| == s.Frontier() < |s.resource| && !s.driven
  {
    hide ControlInv, Locked, Ordered, ContiguousRun;
    ShapeFacts(s);
    if s.driven && !s.failed { AllFinished(s); }
  }

  /** No fetcher ever writes below what has been hashed, nor outside its own chunk. */
  lemma WritesStayAhead(s: Run, i: nat, n: nat)
    requires FlowInv(s) && Enabled(s, Put(i, n))
    ensures var at := Reached(s.fetchers[i]);
            |s.hashed| <= s.Frontier() <= at && s.ranges[i].start <= at && at + n <= s.ranges[i].end
  {
    hide ControlInv, Locked, Ordered, ContiguousRun;
    ShapeFacts(s);
    assert ShapeAt(s, i);
    FrontierStopsAt(s.received, s.ranges, |s.resource|, i);
  }

  predicate IsVerifierStep(step: Step)
  {
    step.Look? || step.ReadSome? || step.ReadEnd? || step.ReadFail? || step.Wake?
  }

  function Rank(s: Run): nat
  {
    (if |s.hashed| < |s.resource| then |s.resource| - |s.hashed| else 0) + (if s.permit then 4 else 0)
    + match s.verifier
      case Looking => 3
      case Reading(_) => 2
      case Waiting => 1
      case Returned(_) => 0
  }

  /** Once the fetchers are done with, one way or the other, a verifier that has not returned can step. */
  lemma VerifierCanStep(s: Run) returns (step: Step)
    requires FlowInv(s) && s.driven && !s.verifier.Returned?
    ensures IsVerifierStep(step) && !step.ReadFail? && !step.ReadEnd? && Enabled(s, step)
  {
    hide ControlInv, Locked, Ordered, ContiguousRun, Stamped, Encode;
    RunSizes(s);
    ShapeFacts(s);
    WaitsOnlyForMore(s);
    match s.verifier
    case Looking => step := Look;
    case Waiting => step := Wake;
    case Reading(f) =>
      step := ReadSome(1);
      TileAt(s.ranges, 0, |s.resource|, |s.hashed|);
  }

  /** ... and no other step is left, and every one brings it nearer to returning. */
  lemma VerifierReturns(s: Run, step: Step)
    requires FlowInv(s) && s.driven && Enabled(s, step)
    ensures IsVerifierStep(step) && Apply(s, step).driven
    ensures Rank(Apply(s, step)) < Rank(s)
  {
    hide ControlInv, Locked, Ordered, Shape;
    hide ContiguousRun, Stamped, Encode, Overlay, DoneLine;
    DrivenLeavesVerifier(s, step);
    ShapeFacts(s);
  }

  lemma DrivenLeavesVerifier(s: Run, step: Step)
    requires s.driven && Enabled(s, step)
    ensures IsVerifierStep(step)
  {
    hide Stamped, Encode;
  }

  /** Reading never runs out of file: the trailer is still behind the data. */
  lemma ReadingFindsBytes(s: Run)
    requires FlowInv(s)
    ensures !Enabled(s, ReadEnd)
  {
    hide Locked, Ordered, ContiguousRun, Stable, Stamped, Encode;
    ShapeFacts(s);
    RunSizes(s);
    assert s.verifier.Reading? ==> |s.hashed| < |s.file|;
  }

  /** Every chunk is finished, and nothing has gone wrong since. */
  predicate IsSound(s: Run)
  {
    s.driven && !s.failed && s.verifier != Returned(false)
  }

  lemma SoundStays(s: Run, step: Step)
    requires FlowInv(s) && IsSound(s) && Enabled(s, step) && step != ReadFail
    ensures IsSound(Apply(s, step)) && FlowInv(Apply(s, step))
  {
    hide FlowInv, ContiguousRun;
    StepKeepsFlow(s, step);
    ReadingFindsBytes(s);
    DrivenLeavesVerifier(s, step);
  }

  /** Nothing is left to do but for a read to fail. */
  ghost predicate IsDone(s: Run)
  {
    forall step :: Enabled(s, step) ==> step == ReadFail
  }

  /** From there on, while no read fails, the steps are bounded and the run is over exactly when it has succeeded. */
  lemma {:induction false} SoundRunsSucceed(s: Run, steps: seq<Step>, t: Run)
    requires FlowInv(s) && IsSound(s) && RunsTo(s, steps, t) && ReadFail !in steps
    ensures |steps| + Rank(t) <= Rank(s)
    ensures IsDone(t) <==> Succeeded(t)
    decreases |steps|
  {
    hide FlowInv, Enabled, Apply, IsSound, Succeeded, Rank, IsDone;
    if steps == [] {
      SoundIsDone(s);
    } else {
      SoundStays(s, steps[0]);
      SoundIsDriven(s);
      VerifierReturns(s, steps[0]);
      SoundRunsSucceed(Apply(s, steps[0]), steps[1..], t);
    }
  }

  lemma SoundIsDriven(s: Run)
    requires IsSound(s)
    ensures s.driven
  {}

  lemma SoundIsDone(s: Run)
    requires FlowInv(s) && IsSound(s)
    ensures IsDone(s) <==> Succeeded(s)
  {
    hide FlowInv;
    if s.verifier.Returned? {
      forall step | Enabled(s, step)
        ensures step == ReadFail
      {
        DrivenLeavesVerifier(s, step);
      }
    } else {
      var step := VerifierCanStep(s);
      assert Enabled(s, step);
    }
  }

  /** ... and it can be brought there. */
  lemma {:induction false} SoundRunCanSucceed(s: Run) returns (steps: seq<Step>, t: Run)
    requires FlowInv(s) && IsSound(s)
    ensures RunsTo(s, steps, t) && Succeeded(t)
    ensures forall step :: step in steps ==> IsVerifierStep(step) && step != ReadFail
    decreases Rank(s)
  {
    hide FlowInv, Enabled, Apply, Rank;
    if s.verifier.Returned? {
      steps, t := [], s;
    } else {
      var step := VerifierCanStep(s);
      SoundStays(s, step);
      VerifierReturns(s, step);
      steps, t := SoundRunCanSucceed(Apply(s, step));
      assert ([step] + steps)[1..] == steps;
      steps := [step] + steps;
    }
  }

  predicate HasRoom(s: Run)
  {
    s.append.Appending? ==> |s.resource| + s.Trailer() + |s.Buffer()| <= MAX_FILE
  }

  /** The chunk has used up its attempts. */
  predicate IsSpent(s: Run, i: nat)
  {
    && i < |s.fetchers| && i < |s.ranges| && s.fetchers[i].phase == Trying
    && s.fetchers[i].offset < s.ranges[i].end && s.fetchers[i].attempt > s.retries
  }

  /** A step of a fetcher that gets on: it puts down all that is missing, records a chunk to its end, leaves a stream
      only then, and appends whole. */
  predicate Advances(s: Run, step: Step)
  {
    match step
    case Put(i, n) => Live(s, i) && s.fetchers[i].offset + s.fetchers[i].written + n == s.ranges[i].end
    case Record(i, due) =>
      && !due && Live(s, i) && 0 < s.fetchers[i].written
      && s.fetchers[i].offset + s.fetchers[i].written == s.ranges[i].end
    case Break(i) => Live(s, i) && s.fetchers[i].offset == s.ranges[i].end
    case PutControl(n) => s.append.Appending? && s.append.reached + n == |s.Buffer()|
    case Begin(_) => true
    case Connect(_) => true
    case Reach(_) => true
    case Lock(_) => true
    case Unlock => true
    case EndDrive => true
    case _ => false
  }

  /** A run that is not over can always take a step: the lock and the queue never deadlock. Short of a full disk
      it is one that gets on, until a chunk's attempts are spent. */
  lemma FetchersCanStep(s: Run) returns (step: Step)
    requires FlowInv(s) && !s.driven
    ensures Enabled(s, step) && !IsVerifierStep(step)
    ensures HasRoom(s) ==> Advances(s, step) || (step.GiveUp? && IsSpent(s, step.i))
  {
    hide ControlInv, Shape, Paced, Ordered, ShapeAt;
    hide ContiguousRun, Stamped, Encode, Stable, Overlay, DoneLine;
    RunSizes(s);
    RunSizesOf(s);
    ReceivedSize(s);
    if s.append.Appending? {
      step := HolderCanStep(s);
    } else if forall j :: 0 <= j < |s.fetchers| ==> s.fetchers[j].phase == Finished {
      step := EndDrive;
    } else if i :| 0 <= i < |s.fetchers| && Active(s.fetchers[i]) {
      ShapeFacts(s);
      ShapeOf(s, i);
      step := ActiveCanStep(s, i);
    } else {
      var i := FirstQueued(s);
      step := Begin(i);
    }
  }

  lemma ShapeOf(s: Run, i: nat)
    requires Shape(s) && i < |s.ranges|
    ensures |s.fetchers| == |s.ranges| == |s.received| && ShapeAt(s, i)
  {}

  lemma ReceivedSize(s: Run)
    requires Shape(s)
    ensures |s.received| == |s.ranges|
  {}

  lemma HolderCanStep(s: Run) returns (step: Step)
    requires ControlInv(s) && |s.fetchers| == |s.ranges| == |s.received|
    requires Locked(s) && !s.driven && s.append.Appending?
    ensures Enabled(s, step) && !IsVerifierStep(step)
    ensures HasRoom(s) ==> Advances(s, step)
  {
    hide Stamped, Encode, Rests, Overlay, DoneLine;
    step := if s.append.reached == |s.Buffer()| then Unlock
            else if HasRoom(s) then PutControl(|s.Buffer()| - s.append.reached)
            else if s.fetchers[s.append.owner].phase == Checkpointing then FailControl(true)
            else GiveUp(s.append.owner);
  }

  lemma ActiveCanStep(s: Run, i: nat) returns (step: Step)
    requires !s.driven && s.append == Unlocked && |s.resource| <= |s.file|
    requires |s.fetchers| == |s.ranges| == |s.received| && i < |s.fetchers| && Active(s.fetchers[i])
    requires ShapeAt(s, i) && s.ranges[i].end <= |s.resource|
    ensures Enabled(s, step) && !IsVerifierStep(step)
    ensures Advances(s, step) || (step.GiveUp? && IsSpent(s, step.i))
  {
    var f, end := s.fetchers[i], s.ranges[i].end;
    match f.phase
    case Trying =>
      step := if f.offset >= end then Reach(i) else if f.attempt <= s.retries then Connect(i) else GiveUp(i);
    case Streaming =>
      step := if f.offset + f.written < end then Put(i, end - f.offset - f.written)
              else if 0 < f.written then Record(i, false)
              else Break(i);
    case Checkpointing => step := Lock(i);
    case Closing => step := Lock(i);
  }

  lemma FirstQueued(s: Run) returns (i: nat)
    requires exists j :: 0 <= j < |s.fetchers| && s.fetchers[j].phase == Queued
    ensures i < |s.fetchers| && s.fetchers[i].phase == Queued && forall j :: 0 <= j < i ==>
            s.fetchers[j].phase != Queued
  {
    i := 0;
    while s.fetchers[i].phase != Queued
      invariant i < |s.fetchers| && forall j :: 0 <= j < i ==> s.fetchers[j].phase != Queued
      decreases |s.fetchers| - i
    {
      i := i + 1;
    }
  }

  /** A resumed run fills its holes from the front: a chunk with new bytes has every earlier chunk complete. */
  lemma ResumeFillsInOrder(s: Run, i: nat, j: nat)
    requires FlowInv(s) && s.resumed && i < j < |s.ranges| && s.received[j] != s.credit[j]
    ensures s.received[i] == s.ranges[i].Len()
  {
    hide ControlInv, Locked, Paced, ContiguousRun;
    assert ShapeAt(s, i) && ShapeAt(s, j);
  }
}
