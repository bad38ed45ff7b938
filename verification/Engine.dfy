/** The resumable scatter download as a step system. One step is the code between two suspension points. */
module Engine {
  import opened Common
  import opened Text
  import opened Plan
  import opened ControlFile

  /** What `probe` reports of the remote resource, and the resource itself, which only fetches reveal. */
  datatype Probe = Probe(resource: seq<byte>, validator: Option<string>, source: Option<string>)

  datatype Options = Options(parts: u32, resume: bool, retries: nat, checksum: Checksum)

  const CHECKPOINT_BYTES: nat := 4 * 1024 * 1024
  const READ_BUFFER: nat := 128 * 1024

  // ----- small pure helpers

  /** `validators_agree`. */
  predicate ValidatorsAgree(stored: Option<string>, current: Option<string>)
  {
    stored.Some? && current.Some? ==> stored == current
  }

  /** `contiguous_run`, as the loop unrolls. */
  function ContiguousRun(received: seq<nat>, ranges: seq<ByteRange>): nat
  {
    if received == [] || ranges == [] then 0
    else received[0] + if received[0] < ranges[0].Len() then 0 else ContiguousRun(received[1..], ranges[1..])
  }

  /** The loop of `contiguous_run`. */
  method SumContiguous(received: seq<nat>, ranges: seq<ByteRange>) returns (run: nat)
    requires |received| == |ranges|
    ensures run == ContiguousRun(received, ranges)
  {
    run := 0;
    var i := 0;
    while i < |received|
      invariant 0 <= i <= |received|
      invariant run + ContiguousRun(received[i..], ranges[i..]) == ContiguousRun(received, ranges)
    {
      run := run + received[i];
      if received[i] < ranges[i].Len() {
        return;
      }
      i := i + 1;
    }
  }

  /** `chunk_of`: the first chunk that ends past `offset`. */
  method ChunkOf(ranges: seq<ByteRange>, offset: nat) returns (index: nat)
    ensures (exists i :: 0 <= i < |ranges| && offset < ranges[i].end) ==>
              index < |ranges| && offset < ranges[index].end && forall i :: 0 <= i < index ==> ranges[i].end <= offset
    ensures (forall i :: 0 <= i < |ranges| ==> ranges[i].end <= offset) ==>
              index == if ranges == [] then 0 else |ranges| - 1
  {
    index := 0;
    while index < |ranges|
      invariant 0 <= index <= |ranges|
      invariant forall i :: 0 <= i < index ==> ranges[i].end <= offset
    {
      if offset < ranges[index].end {
        return;
      }
      index := index + 1;
    }
    index := if ranges == [] then 0 else |ranges| - 1;
  }

  // ----- deciding how to start

  datatype Decision =
    | Fresh(ranges: seq<ByteRange>)
    | Resume(ranges: seq<ByteRange>, received: seq<nat>)
    | Refuse

  /** The branches of `resume_plan`. */
  ghost predicate Decides(file: seq<byte>, total: u64, validator: Option<string>, options: Options, d: Decision)
  {
    var plan := PlanOf(0, total, options.parts);
    if !options.resume then d == Fresh(plan)
    else
      match ReadOf(file)
      case Some(control) =>
        if control.total == total && ValidatorsAgree(control.notes.validator, validator) then
          && d.Resume? && d.ranges == plan && |d.received| == |plan|
          && forall i :: 0 <= i < |plan| ==> IsCredit(plan[i], control.notes.done, d.received[i])
        else d == Fresh(plan)
      case None => d == if file == [] then Fresh(plan) else Refuse
  }

  method ResumePlan(file: seq<byte>, total: u64, validator: Option<string>, options: Options) returns (d: Decision)
    ensures Decides(file, total, validator, options, d)
    ensures d == Refuse <==> options.resume && file != [] && ReadOf(file) == None
    ensures d.Resume? ==> options.resume && ReadOf(file).Some? && ReadOf(file).value.total == total
  {
    if !options.resume {
      var ranges := PlanRange(0, total, options.parts);
      return Fresh(ranges);
    }
    var control := Read(file);
    if control.Some? {
      if control.value.total == total && ValidatorsAgree(control.value.notes.validator, validator) {
        var ranges, received := PlanResume(total, options.parts, control.value.notes.done);
        return Resume(ranges, received);
      }
      var ranges := PlanRange(0, total, options.parts);
      return Fresh(ranges);
    }
    if |file| == 0 {
      var ranges := PlanRange(0, total, options.parts);
      return Fresh(ranges);
    }
    d := Refuse;
  }

  // ----- one run

  datatype Phase =
    | Queued        // not yet polled by the driver
    | Trying        // at the top of the attempt loop
    | Streaming     // inside `fill`, with a stream open
    | Checkpointing // wants, or holds, the control lock for its prefix
    | Closing       // wants, or holds, the control lock for its whole range
    | Finished

  /** `offset` is how far the chunk is recorded; `written` counts bytes put down past it and not yet recorded. */
  datatype Fetcher = Fetcher(phase: Phase, offset: nat, written: nat, checkpointed: nat, attempt: nat)

  /** The append that holds the control lock: how much of its buffer has reached the file. `tail` is what
      lay past the data when the append began. */
  datatype Append = Unlocked | Appending(owner: nat, range: ByteRange, reached: nat, tail: seq<byte>)

  /** Between appends, what lies at and past the writer's place:
      its own footer; the remains of one append that failed part-way; those with one more append over them; more.
      Or the writer has moved past a line that is not all there: with nothing put down since, or with something. */
  datatype Footing = Intact | Torn | Overlaid | Muddled | Gapped | Broken {
    /** With one more append over it that did not cover everything. */
    function Deeper(): Footing {
      match this
      case Intact => Torn
      case Torn => Overlaid
      case _ => Muddled
    }

    /** Every line the writer has moved past is in the file. */
    predicate IsWhole() { !Gapped? && !Broken? }
  }

  datatype Verifier = Looking | Reading(frontier: nat) | Waiting | Returned(ok: bool)

  /** `text` is what the writer takes to be there: it has moved past all of it. */
  datatype Run = Run(
    resource: seq<byte>, ranges: seq<ByteRange>, credit: seq<nat>, resumed: bool, retries: nat,
    file: seq<byte>, text: string, footing: Footing, append: Append,
    fetchers: seq<Fetcher>, received: seq<nat>, permit: bool, failed: bool, driven: bool,
    verifier: Verifier, hashed: seq<byte>)
  {
    function Total(): nat { |resource| }

    function Trailer(): nat { |Encode(text)| }

    function Frontier(): nat { ContiguousRun(received, ranges) }

    function AppendRange(i: nat): ByteRange
      requires i < |fetchers| && i < |ranges|
    {
      if fetchers[i].phase == Checkpointing && ranges[i].start <= fetchers[i].offset <= U64_MAX
      then ByteRange(ranges[i].start, fetchers[i].offset) else ranges[i]
    }

    function Buffer(): seq<byte>
      requires append.Appending?
    {
      Stamped(Total(), Trailer(), Encode(DoneLine(append.range)))
    }

    /** The trailer's text once the append is let go, by a writer that has moved on or stays. */
    function TextAfter(moves: bool): string
      requires append.Appending?
    {
      if moves then text + DoneLine(append.range) else text
    }

    function FootingAfter(moves: bool): Footing
      requires append.Appending?
    {
      var k, line, place := append.reached, |Encode(DoneLine(append.range))|, Total() + Trailer();
      if moves && k < line then if IsMisled() then Broken else Gapped
      else if k == 0 then footing
      else if !footing.IsWhole() then Broken
      else if k == |Buffer()| && |file| == place + k then Intact
      else if footing == Intact || (footing == Torn && moves && |file| < place + line + FOOTER) then Torn
      else footing.Deeper()
    }

    /** An append lies, or is being laid, past a line that was lost. */
    predicate IsPastGap() { footing == Broken || (footing == Gapped && append.Appending? && append.reached > 0) }

    /** An append lies, or is being laid, over a second one that did not cover what a first one left. */
    predicate IsOverTwo() { footing == Muddled || (footing == Overlaid && append.Appending? && append.reached > 0) }

    /** What a reader finds may be a record nobody made. */
    predicate IsMisled() { IsPastGap() || IsOverTwo() }
  }

  function StartFetcher(range: ByteRange, credit: nat): Fetcher
  {
    Fetcher(Queued, range.start + credit, 0, range.start + credit, 0)
  }

  function StartRun(probe: Probe, options: Options, ranges: seq<ByteRange>, credit: seq<nat>, resumed: bool,
                    file: seq<byte>, text: string): Run
    requires |ranges| == |credit|
  {
    Run(probe.resource, ranges, credit, resumed, options.retries, file, text, Intact, Unlocked,
        seq(|ranges|, i requires 0 <= i < |ranges| => StartFetcher(ranges[i], credit[i])), credit,
        false, false, false, Looking, [])
  }

  datatype Step =
    | Begin(i: nat)               // the driver polls the next chunk for the first time
    | Connect(i: nat)             // an attempt starts streaming from the recorded offset
    | Put(i: nat, n: nat)         // `n` more bytes of the resource reach the file
    | Record(i: nat, due: bool)   // a piece is flushed: recorded, the verifier nudged; `due` is the timer
    | Break(i: nat)               // the stream ends or fails
    | Reach(i: nat)               // nothing is left to fetch
    | Lock(i: nat)                // the control lock is free and taken
    | PutControl(n: nat)          // `n` more bytes of the append reach the file
    | Unlock                      // the append is complete
    | FailControl(moves: bool)    // a checkpoint's append fails: at its seek or write, or at its flush, having moved on
    | GiveUp(i: nat)              // opening failed, the attempts are spent, or the last append failed
    | EndDrive                    // every chunk is finished
    | Look | ReadSome(n: nat) | ReadEnd | ReadFail | Wake

  predicate Live(s: Run, i: nat)
  {
    !s.driven && i < |s.fetchers| && i < |s.ranges| && i < |s.received|
  }

  predicate Active(f: Fetcher) { f.phase != Queued && f.phase != Finished }

  predicate Enabled(s: Run, step: Step)
  {
    match step
    case Begin(i) =>
      && Live(s, i) && s.fetchers[i].phase == Queued
      && (forall j :: 0 <= j < i ==> s.fetchers[j].phase != Queued)
      && (s.resumed ==> forall j :: 0 <= j < |s.fetchers| ==> !Active(s.fetchers[j]))
    case Connect(i) =>
      Live(s, i) && s.fetchers[i].phase == Trying
      && s.fetchers[i].offset < s.ranges[i].end && s.fetchers[i].attempt <= s.retries
    case Put(i, n) =>
      && Live(s, i) && s.fetchers[i].phase == Streaming && 0 < n
      && s.fetchers[i].offset + s.fetchers[i].written + n <= s.ranges[i].end
      && s.ranges[i].end <= s.Total()
    case Record(i, due) => Live(s, i) && s.fetchers[i].phase == Streaming
    case Break(i) => Live(s, i) && s.fetchers[i].phase == Streaming
    case Reach(i) => Live(s, i) && s.fetchers[i].phase == Trying && s.fetchers[i].offset >= s.ranges[i].end
    case Lock(i) =>
      && Live(s, i) && s.fetchers[i].phase in {Checkpointing, Closing}
      && s.append == Unlocked && s.Total() <= |s.file|
    case PutControl(n) =>
      && !s.driven && s.append.Appending? && 0 < n && s.append.reached + n <= |s.Buffer()|
      && s.Total() + s.Trailer() + s.append.reached + n <= MAX_FILE
    case Unlock =>
      !s.driven && s.append.Appending? && s.append.owner < |s.fetchers| && s.append.reached == |s.Buffer()|
    case FailControl(moves) =>
      && !s.driven && s.append.Appending? && s.append.owner < |s.fetchers|
      && s.fetchers[s.append.owner].phase == Checkpointing && s.append.reached <= |s.Buffer()|
      && (s.append.reached == |s.Buffer()| ==> moves)
    case GiveUp(i) =>
      && Live(s, i)
      && ((s.fetchers[i].phase == Trying && s.fetchers[i].offset < s.ranges[i].end
           && (s.fetchers[i].attempt == 0 || s.fetchers[i].attempt > s.retries))
          || (s.fetchers[i].phase == Closing && s.append.Appending? && s.append.owner == i))
    case EndDrive => !s.driven && forall j :: 0 <= j < |s.fetchers| ==> s.fetchers[j].phase == Finished
    case Look => s.verifier == Looking
    case ReadSome(n) =>
      && s.verifier.Reading? && 0 < n <= READ_BUFFER
      && |s.hashed| + n <= s.verifier.frontier && |s.hashed| + n <= |s.file|
      && exists i :: 0 <= i < |s.ranges| && s.ranges[i].start <= |s.hashed| && |s.hashed| + n <= s.ranges[i].end
    case ReadEnd => s.verifier.Reading? && |s.file| <= |s.hashed|
    case ReadFail => s.verifier.Reading? || s.verifier == Looking
    case Wake => s.verifier == Waiting && s.permit
  }

  /** After the sweep reaches its frontier: done, or waiting to be nudged. */
  function Rest(s: Run): Run
  {
    s.(verifier := if |s.hashed| >= s.Total() then Returned(true) else Waiting)
  }

  function SetFetcher(s: Run, i: nat, f: Fetcher): Run
    requires i < |s.fetchers|
  {
    s.(fetchers := s.fetchers[i := f])
  }

  function DoRecord(s: Run, i: nat, due: bool): Run
    requires Live(s, i)
  {
    var f := s.fetchers[i];
    var offset := f.offset + f.written;
    var progressed := offset - f.checkpointed;
    var phase := if progressed >= CHECKPOINT_BYTES || (progressed > 0 && due) then Checkpointing else Streaming;
    SetFetcher(s, i, f.(offset := offset, written := 0, phase := phase))
      .(received := s.received[i := if s.ranges[i].start <= offset then offset - s.ranges[i].start else 0],
        permit := true)
  }

  function DoLook(s: Run): Run
  {
    if s.failed then s.(verifier := Returned(false))
    else if |s.hashed| < s.Frontier() then s.(verifier := Reading(s.Frontier()))
    else Rest(s)
  }

  function DoRead(s: Run, n: nat): Run
    requires s.verifier.Reading? && |s.hashed| + n <= |s.file|
  {
    var t := s.(hashed := s.hashed + s.file[|s.hashed|..|s.hashed| + n]);
    if |t.hashed| >= s.verifier.frontier then Rest(t) else t
  }

  function Apply(s: Run, step: Step): Run
    requires Enabled(s, step)
  {
    match step
    case Begin(i) =>
      SetFetcher(s, i, s.fetchers[i].(phase := if s.received[i] >= s.ranges[i].Len() then Finished else Trying))
    case Connect(i) =>
      SetFetcher(s, i, s.fetchers[i].(phase := Streaming, written := 0, attempt := s.fetchers[i].attempt + 1))
    case Put(i, n) =>
      var at := s.fetchers[i].offset + s.fetchers[i].written;
      SetFetcher(s, i, s.fetchers[i].(written := s.fetchers[i].written + n))
        .(file := Overlay(s.file, at, s.resource[at..at + n]))
    case Record(i, due) => DoRecord(s, i, due)
    case Break(i) => SetFetcher(s, i, s.fetchers[i].(phase := Trying, written := 0))
    case Reach(i) => SetFetcher(s, i, s.fetchers[i].(phase := Closing))
    case Lock(i) => s.(append := Appending(i, s.AppendRange(i), 0, s.file[s.Total()..]))
    case PutControl(n) =>
      var k := s.append.reached;
      s.(file := Overlay(s.file, s.Total() + s.Trailer() + k, s.Buffer()[k..k + n]),
         append := s.append.(reached := k + n))
    case Unlock =>
      var i := s.append.owner;
      var f := s.fetchers[i];
      SetFetcher(s, i, if f.phase == Closing then f.(phase := Finished)
                       else f.(phase := Streaming, checkpointed := f.offset))
        .(text := s.TextAfter(true), footing := s.FootingAfter(true), append := Unlocked)
    case FailControl(moves) =>
      var i := s.append.owner;
      SetFetcher(s, i, s.fetchers[i].(phase := Trying, written := 0))
        .(text := s.TextAfter(moves), footing := s.FootingAfter(moves), append := Unlocked)
    case GiveUp(i) => s.(failed := true, driven := true, permit := true)
    case EndDrive => s.(driven := true, permit := true)
    case Look => DoLook(s)
    case ReadSome(n) => DoRead(s, n)
    case ReadEnd => s.(verifier := Returned(false))
    case ReadFail => s.(verifier := Returned(false))
    case Wake => s.(permit := false, verifier := Looking)
  }

  /** Both halves of the join have returned, and neither with an error. */
  predicate Succeeded(s: Run)
  {
    s.driven && !s.failed && s.verifier == Returned(true)
  }

  // ----- any number of runs over one file

  /** What failed appends can do to a file that makes it read as something nobody recorded. */
  datatype Mishap = PastGap | OverTwo

  /** `origin` is the resource the file was created for; `mishaps` are those the file was left with. */
  datatype World =
    | Idle(file: seq<byte>, origin: seq<byte>, mishaps: set<Mishap>)
    | Creating(file: seq<byte>, probe: Probe, options: Options, reached: nat)
    | Scattering(run: Run)
    | Complete(file: seq<byte>, resource: seq<byte>, hashed: seq<byte>)

  function FileOf(w: World): seq<byte>
  {
    match w
    case Idle(file, _, _) => file
    case Creating(file, _, _, _) => file
    case Scattering(run) => run.file
    case Complete(file, _, _) => file
  }

  function OriginOf(w: World): seq<byte>
  {
    match w
    case Idle(_, origin, _) => origin
    case Creating(_, probe, _, _) => probe.resource
    case Scattering(run) => run.resource
    case Complete(_, resource, _) => resource
  }

  function MishapsOf(w: World): set<Mishap>
  {
    match w
    case Idle(_, _, mishaps) => mishaps
    case Scattering(run) => (if run.IsPastGap() then {PastGap} else {}) + (if run.IsOverTwo() then {OverTwo} else {})
    case _ => {}
  }

  ghost predicate StartsRun(w: World, w': World, probe: Probe, options: Options)
  {
    && w.Idle? && |probe.resource| <= MAX_FILE
    && exists d :: Decides(w.file, |probe.resource|, probe.validator, options, d) && Begins(w, w', probe, options, d)
  }

  ghost predicate Begins(w: World, w': World, probe: Probe, options: Options, d: Decision)
    requires w.Idle?
  {
    match d
    case Refuse => w' == w
    case Fresh(_) => w' == Creating([], probe, options, 0)
    case Resume(ranges, received) =>
      |ranges| == |received| && exists text :: Reopens(w, w', probe, options, ranges, received, text)
  }

  ghost predicate Reopens(w: World, w': World, probe: Probe, options: Options, ranges: seq<ByteRange>,
                          received: seq<nat>, text: string)
    requires w.Idle? && |ranges| == |received|
  {
    && Stable(w.file, |probe.resource|, text)
    && w' == Scattering(StartRun(probe, options, ranges, received, true, w.file, text))
  }

  function Seed(w: World): seq<byte>
    requires w.Creating?
  {
    Stamped(|w.probe.resource|, 0, Encode(Header(w.probe.source, w.probe.validator, w.options.checksum)))
  }

  ghost predicate PutsSeed(w: World, w': World, n: nat)
  {
    && w.Creating? && 0 < n && w.reached + n <= |Seed(w)|
    && |w.probe.resource| <= |w.file| && |w.probe.resource| + w.reached + n <= MAX_FILE
    && w' == Creating(Overlay(w.file, |w.probe.resource| + w.reached, Seed(w)[w.reached..w.reached + n]),
                      w.probe, w.options, w.reached + n)
  }

  ghost predicate Opens(w: World, w': World)
  {
    && w.Creating? && w.reached == |Seed(w)| && |w.probe.resource| <= U64_MAX
    && var ranges := PlanOf(0, |w.probe.resource|, w.options.parts);
      w' == Scattering(StartRun(w.probe, w.options, ranges, seq(|ranges|, _ => 0), false, w.file,
                                Header(w.probe.source, w.probe.validator, w.options.checksum)))
  }

  ghost predicate Next(w: World, w': World)
  {
    || (exists probe, options :: StartsRun(w, w', probe, options))
       // a creation allocates, writes its seed piece by piece, then its run starts
    || (w.Creating? && w.reached == 0 && w' == Creating(Zeros(|w.probe.resource|), w.probe, w.options, 0))
    || (exists n: nat :: PutsSeed(w, w', n))
    || Opens(w, w')
    || (w.Scattering? && exists step :: Enabled(w.run, step) && w' == Scattering(Apply(w.run, step)))
       // the trailer is cut off, leaving the image
    || (w.Scattering? && Succeeded(w.run) && w.run.Total() <= |w.run.file|
        && w' == Complete(w.run.file[..w.run.Total()], w.run.resource, w.run.hashed))
       // the image is renamed into place
    || (w.Complete? && w' == Idle([], w.resource, {}))
       // interrupted, or returned: the file is all that is left
    || w' == Idle(FileOf(w), OriginOf(w), MishapsOf(w))
  }

  /** A history of one file: absent at first, then any runs, steps and interruptions. */
  ghost predicate History(ws: seq<World>)
  {
    && ws != [] && ws[0].Idle? && ws[0].file == [] && ws[0].mishaps == {}
    && forall i, j :: 0 <= i && j == i + 1 && j < |ws| ==> Next(ws[i], ws[j])
  }

  // ----- what makes a file's content worth trusting

  predicate OneLine(value: Option<string>) { value.Some? ==> '\n' !in value.value }

  /** Source and validator keep to their lines. */
  predicate IsPlain(w: World) { w.Creating? ==> OneLine(w.probe.source) && OneLine(w.probe.validator) }

  /** A file is taken up again only for the resource it was created for. */
  predicate KeepsOrigin(w: World, w': World) { w.Idle? && w'.Scattering? ==> w'.run.resource == w.origin }

  /** The server's part in that: a resource that matches the recorded length and validator is the one the file was
      created for. */
  ghost predicate Unchanged(file: seq<byte>, origin: seq<byte>, probe: Probe)
  {
    match ReadOf(file)
    case None => true
    case Some(control) =>
      control.total == |probe.resource| && ValidatorsAgree(control.notes.validator, probe.validator)
      ==> probe.resource == origin
  }

  /** ... and a file that failed appends have left with a mishap is not taken up. It may be downloaded afresh. */
  predicate Heeds(w: World, w': World) { KeepsOrigin(w, w') && (w.Idle? && w'.Scattering? ==> w.mishaps == {}) }

  /** Nothing is created after `j`, up to `i`. */
  ghost predicate SameFile(ws: seq<World>, j: nat, i: nat)
    requires i < |ws|
  {
    forall m :: j < m <= i ==> !ws[m].Creating?
  }

  /** All of that since the file as it is at `i` was created. */
  ghost predicate HeededSince(ws: seq<World>, i: nat)
    requires i < |ws|
  {
    && (forall j, k :: 0 <= j && k == j + 1 && k <= i && SameFile(ws, j, i) ==> Heeds(ws[j], ws[k]))
    && (forall j :: 0 <= j <= i && SameFile(ws, j, i) ==> IsPlain(ws[j]))
  }

  /** All of that throughout, but for the mishaps. */
  ghost predicate IsSteady(ws: seq<World>)
  {
    && (forall i :: 0 <= i < |ws| ==> IsPlain(ws[i]))
    && (forall i, j :: 0 <= i && j == i + 1 && j < |ws| ==> KeepsOrigin(ws[i], ws[j]))
  }

  /** Failed appends have done nothing beyond `allowed`. */
  ghost predicate Confined(ws: seq<World>, allowed: set<Mishap>)
  {
    forall i :: 0 <= i < |ws| ==> MishapsOf(ws[i]) <= allowed
  }
}
