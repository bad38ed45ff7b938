/** How a run begins on the file it finds: what a resume may truncate, and what it leaves alone. */
module Starting {
  import opened Common
  import opened Text
  import opened Plan
  import opened ControlFile
  import opened ControlLaws
  import opened Remains
  import opened Engine
  import opened EngineLaws
  import opened ScatterSafety

  /** The two have a validator each, and they differ. */
  predicate Contradict(a: Option<string>, b: Option<string>) { a.Some? && b.Some? && a.value != b.value }

  /** The file reads as a control for another length, or with a validator that contradicts the resource's. */
  predicate IsForAnother(file: seq<byte>, probe: Probe)
  {
    && ReadOf(file).Some?
    && (ReadOf(file).value.total != |probe.resource|
        || Contradict(ReadOf(file).value.notes.validator, probe.validator))
  }

  /** Asked to resume, a run on a file that is there starts afresh over a control for another resource, refuses
      a file with no control, which it leaves as it was, and takes up every other. */
  lemma ResumingStarts(w: World, w': World, probe: Probe, options: Options)
    requires StartsRun(w, w', probe, options) && options.resume && w.file != []
    ensures w'.Creating? <==> IsForAnother(w.file, probe)
    ensures w' == w <==> ReadOf(w.file) == None
    ensures w'.Scattering? <==> ReadOf(w.file).Some? && !IsForAnother(w.file, probe)
    ensures w'.Creating? ==> w' == Creating([], probe, options, 0)
  {
    hide ReadOf, PlanOf, Stable, IsCredit;
  }

  /** No step of a history truncates a partial file that a resume was asked for, but one that reads as a control for
      another resource. */
  lemma PartialsAreKept(w: World, w': World)
    requires Next(w, w') && w.Idle? && w.file != [] && w'.Creating? && w'.options.resume
    ensures IsForAnother(w.file, w'.probe)
  {
    hide StartsRun, Enabled, Apply, IsForAnother, Overlay, Stamped, Encode, Header, PlanOf;
    var probe, options :| StartsRun(w, w', probe, options);
    StartsAsAsked(w, w', probe, options);
    ResumingStarts(w, w', probe, options);
  }

  lemma StartsAsAsked(w: World, w': World, probe: Probe, options: Options)
    requires StartsRun(w, w', probe, options) && w'.Creating?
    ensures w'.probe == probe && w'.options == options
  {
    hide ReadOf, PlanOf, Stable, IsCredit;
  }

  /** A file left inside an append, or by one that has failed part-way, is not truncated by any resume: it is refused,
      and stays as it is. */
  lemma CutAppendsAreKept(ws: seq<World>, i: nat, w: World, w': World, probe: Probe, options: Options)
    requires History(ws) && i < |ws| && ws[i].Scattering?
    requires var s := ws[i].run;
             || (s.append == Unlocked && s.footing == Torn)
             || (s.append.Appending? && s.footing == Intact && 0 < s.append.reached < |s.Buffer()|)
    requires w == Idle(FileOf(ws[i]), OriginOf(ws[i]), MishapsOf(ws[i]))
    requires StartsRun(w, w', probe, options) && options.resume
    ensures ReadOf(w.file) == None && w' == w
  {
    hide StartsRun, ReadOf, History, MishapsOf, Stamped, Encode, IsForAnother;
    var s := ws[i].run;
    RunInHistory(ws, i);
    if s.append == Unlocked { TornIsUnreadable(s); } else { CutIsUnreadable(s); }
    ResumingStarts(w, w', probe, options);
  }

  lemma TornIsUnreadable(s: Run)
    requires FlowInv(s) && s.append == Unlocked && s.footing == Torn
    ensures ReadOf(s.file) == None && s.file != []
  {
    hide ReadOf, Encode, Shape, Paced, Locked, Ordered;
    OffMagicUnreadable(s.file);
  }

  lemma CutIsUnreadable(s: Run)
    requires FlowInv(s) && s.append.Appending? && s.footing == Intact && 0 < s.append.reached < |s.Buffer()|
    ensures ReadOf(s.file) == None && s.file != []
  {
    hide ReadOf, Encode, Shape, Paced, Locked, Ordered, Stamped, Overlay, DoneLine, IsFooter;
    AppendedFile(s);
    AppendInRoom(s);
    DoneLineBytes(s.append.range);
    TornAppend(Resting(s), |s.resource|, s.text, s.append.range, s.append.reached);
  }

  /** A whole append is what a later run will be credited with: a checkpoint records its chunk as far as it is received,
      and the last append of a chunk its whole range. */
  lemma AppendIsCredited(s: Run)
    requires FlowInv(s) && Enabled(s, Unlock) && EndsLine(s.text)
    ensures s.append.Appending? && s.append.owner < |s.ranges| && s.append.owner < |s.fetchers|
    ensures var t := Apply(s, Unlock); var (f, r) := (s.fetchers[s.append.owner], s.ranges[s.append.owner]);
            && NotesIn(t.text).done == NotesIn(s.text).done + [ByteRange(r.start, f.offset)]
            && (f.phase == Closing ==> f.offset == r.end)
            && r.start + s.received[s.append.owner] == f.offset && EndsLine(t.text)
  {
    hide ControlInv, Paced, Ordered, Encode, DoneLine, NotesIn, Stamped;
    var i := s.append.owner;
    assert ShapeAt(s, i);
    AppendRecords(s.text, s.append.range);
  }
}
