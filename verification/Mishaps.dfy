/** What failed appends can do, as histories of the download: the two mishaps, each reached by steps of a run, each
    enough for a record nobody made and for a download that succeeds with wrong bytes; and nothing else is. */
module Mishaps {
  import opened Common
  import opened Text
  import opened Plan
  import opened ControlFile
  import opened ControlLaws
  import opened Remains
  import opened Engine
  import opened EngineLaws
  import opened ScatterSafety

  // ----- a line that is lost

  /** The place of a line of `n` bytes of which `k` are down over a footer: the rest of that footer shows, and zeros. */
  function Shown(line: seq<byte>, k: nat, footer: seq<byte>): seq<byte>
    requires k <= |line| && |footer| == FOOTER
  {
    seq(|line|, i requires 0 <= i < |line| => if i < k then line[i] else if i < FOOTER then footer[i] else 0)
  }

  /** After a flush that failed with part of its line down, and a whole append at the place the writer had moved to,
      the file is at rest on what shows in the lost line's place. */
  lemma LostLineShows(file: seq<byte>, total: nat, text: seq<byte>, lost: seq<byte>, k: nat, line: seq<byte>)
    requires AtRest(file, total, text) && 0 < |lost| && k <= |lost| && 0 < |line|
    requires 9 <= |lost| <= 47 && |line| >= 9
    requires total + |text| + |lost| + |line| + FOOTER <= U64_MAX
    ensures var at, footer := total + |text|, file[total + |text|..];
            var torn := Overlay(file, at, Stamped(total, |text|, lost)[..k]);
            AtRest(Overlay(torn, at + |lost|, Stamped(total, |text| + |lost|, line)), total,
                   text + Shown(lost, k, footer) + line)
  {
    hide FooterBytes, Overlay, IsFooter;
    var at, footer := total + |text|, file[total + |text|..];
    var data, buffer := Stamped(total, |text|, lost)[..k], Stamped(total, |text| + |lost|, line);
    var torn := Overlay(file, at, data);
    var after := Overlay(torn, at + |lost|, buffer);
    OverlayAt(file, at, data);
    OverlayAt(torn, at + |lost|, buffer);
    var shown := text + Shown(lost, k, footer) + line;
    assert |after| == total + |shown| + FOOTER;
    forall i | 0 <= i < |shown|
      ensures after[total + i] == shown[i]
    {
      assert i < |text| ==> file[total..at][i] == file[total + i];
    }
    assert after[total..total + |shown|] == shown;
    FooterBytesAreFooter(total, |shown|);
    assert after[total + |shown|..] == FooterBytes(total, |shown|);
  }

  /** The low bytes of a total: a "9" and a line feed. */
  predicate NineAndFeed(total: nat) { total % 65536 == 0x0A39 }

  /** For every such total and every text: `[0, 20)` is lost at its flush with eight bytes down, the next append is
      whole, and the file reads as a control that records `[0, 29)`. */
  lemma LostLineMisreads(file: seq<byte>, total: nat, text: string, r: ByteRange)
    requires Stable(file, total, text) && EndsLine(text) && NineAndFeed(total)
    requires total + |Encode(text)| + 57 + FOOTER <= U64_MAX
    ensures |Encode(DoneLine(ByteRange(0, 20)))| == 10
    ensures var after := AfterLoss(file, total, text, ByteRange(0, 20), 8, r);
            && Stable(after, total, text + DoneLine(ByteRange(0, 29)) + DoneLine(r))
            && NotesIn(text + DoneLine(ByteRange(0, 29)) + DoneLine(r)).done
               == NotesIn(text).done + [ByteRange(0, 29), r]
  {
    hide Encode, DoneLine, NotesIn, Overlay, Stamped, Stable, AfterLoss;
    var seen := DoneLine(ByteRange(0, 29));
    NineLines();
    SeenStands(file, total, text, ByteRange(0, 20), r, seen);
    AppendRecords(text, ByteRange(0, 29));
    AppendRecords(text + seen, r);
    assert (NotesIn(text).done + [ByteRange(0, 29)]) + [r] == NotesIn(text).done + [ByteRange(0, 29), r];
  }

  /** The file after an append of `lost` has failed at its flush with `k` bytes down, and a whole append of `r`. */
  function AfterLoss(file: seq<byte>, total: nat, text: string, lost: ByteRange, k: nat, r: ByteRange): seq<byte>
    requires k <= |Encode(DoneLine(lost))|
  {
    var t, line := |Encode(text)|, Encode(DoneLine(lost));
    var torn := Overlay(file, total + t, Stamped(total, t, line)[..k]);
    Overlay(torn, total + t + |line|, Stamped(total, t + |line|, Encode(DoneLine(r))))
  }

  /** Eight bytes of "done 0 20" and two of the total show as `seen`, and the file is at rest on it. */
  lemma SeenStands(file: seq<byte>, total: nat, text: string, lost: ByteRange, r: ByteRange, seen: string)
    requires Stable(file, total, text) && total % 256 == 0x39 && total / 256 % 256 < 128
    requires total + |Encode(text)| + 57 + FOOTER <= U64_MAX
    requires DoneLine(lost) == "done 0 20\n"
    requires |seen| == 10 && seen[..8] == "done 0 2" && seen[8] == '9' && seen[9] as int == total / 256 % 256
    ensures |Encode(DoneLine(lost))| == 10
    ensures Stable(AfterLoss(file, total, text, lost, 8, r), total, text + seen + DoneLine(r))
  {
    hide Encode, DoneLine, NotesIn, Overlay, Stamped, LittleEndian, IsFooter;
    var t, line, next := Encode(text), Encode(DoneLine(lost)), Encode(DoneLine(r));
    DoneLineBytes(lost);
    DoneLineBytes(r);
    DoneLineIsShort(r);
    LostLineShows(file, total, t, line, 8, next);
    FooterStarts(file[total + |t|..], total, |t|);
    SeenShows(line, file[total + |t|..], DoneLine(lost), seen);
    EncodeConcat(text, seen);
    EncodeConcat(text + seen, DoneLine(r));
  }

  lemma SeenShows(line: seq<byte>, footer: seq<byte>, lost: string, seen: string)
    requires lost == "done 0 20\n" && line == Encode(lost) && |footer| == FOOTER
    requires |seen| == 10 && seen[..8] == "done 0 2" && seen[8] == '9' && (seen[9] as int) < 128
    requires footer[8] == 0x39 && footer[9] == seen[9] as int
    ensures |line| == 10 && Shown(line, 8, footer) == Encode(seen)
  {
    hide Encode;
    assert IsAscii(lost);
    EncodeAscii(lost);
    assert forall i :: 0 <= i < 8 ==> seen[i] == seen[..8][i] == lost[i];
    assert IsAscii(seen);
    EncodeAscii(seen);
  }

  /** ... and with a blank for the line feed, what shows runs on into the next line: `[0, 29)` is recorded, and the
      range that was appended is not. */
  lemma LostLineRunsOn(file: seq<byte>, total: nat, text: string, r: ByteRange)
    requires Stable(file, total, text) && EndsLine(text) && total % 65536 == 0x2039
    requires total + |Encode(text)| + 57 + FOOTER <= U64_MAX
    ensures |Encode(DoneLine(ByteRange(0, 20)))| == 10
    ensures ReadOf(AfterLoss(file, total, text, ByteRange(0, 20), 8, r))
     == Some(Control(total, NotesIn(text).(done := NotesIn(text).done + [ByteRange(0, 29)])))
  {
    hide Encode, DoneLine, NotesIn, Overlay, Stamped, Stable, ReadOf, AfterLoss;
    var seen := "done 0 29 ";
    NineLines();
    SeenStands(file, total, text, ByteRange(0, 20), r, seen);
    StableReads(AfterLoss(file, total, text, ByteRange(0, 20), 8, r), total, text + seen + DoneLine(r));
    RunsOnNotes(text, r);
  }

  lemma RunsOnNotes(text: string, r: ByteRange)
    requires EndsLine(text)
    ensures NotesIn(text + "done 0 29 " + DoneLine(r))
     == NotesIn(text).(done := NotesIn(text).done + [ByteRange(0, 29)])
  {
    hide Decimal, Lines, Fields, NoteAll, DoneOf, IsWhite, DoneLine;
    var q := "done " + Decimal(r.start) + " " + Decimal(r.end);
    var line := "done 0 29 " + q;
    DoneLineFields(r);
    assert text + "done 0 29 " + DoneLine(r) == text + (line + "\n");
    assert line[|line| - 1] == q[|q| - 1];
    assert '\n' !in "done 0 29 ";
    LinesConcat(text, line + "\n");
    LinesOfOne(line);
    NoteAllConcat(NO_NOTES, Lines(text), [line]);
    NoteOne(NotesIn(text), line);
    RunOnRecords(q, line);
  }

  lemma RunOnRecords(q: string, line: string)
    requires line == "done 0 29 " + q
    ensures !IsKeyed(line) && DoneOf(line) == [ByteRange(0, 29)]
  {
    hide Fields, ParseU64;
    var rest := " " + q;
    assert line == "done" + (" " + ("0" + (" " + ("29" + rest))));
    FieldsOfWord("done", " " + ("0" + (" " + ("29" + rest))));
    FieldsAfterSpace("0" + (" " + ("29" + rest)));
    FieldsOfWord("0", " " + ("29" + rest));
    FieldsAfterSpace("29" + rest);
    FieldsOfWord("29", rest);
    assert Fields(line) == ["done", "0", "29"] + Fields(rest);
    assert line[0] == 'd';
    NineNumbers();
  }

  lemma NineNumbers()
    ensures ParseU64("0") == Some(0) && ParseU64("29") == Some(29)
  {
    hide ParseU64, Decimal, IsDecimal, Value;
    SmallDecimals();
    DecimalAppends(2, "", '2');
    DecimalAppends(29, "2", '9');
    assert Decimal(29) == "29";
    ParseDecimal(0);
    ParseDecimal(29);
  }

  lemma NineLines()
    ensures DoneLine(ByteRange(0, 20)) == "done 0 20\n" && DoneLine(ByteRange(0, 29)) == "done 0 29\n"
  {
    hide Decimal, IsDecimal, Value;
    SmallDecimals();
    DecimalAppends(2, "", '2');
    DecimalAppends(29, "2", '9');
  }

  lemma FooterStarts(footer: seq<byte>, total: nat, trailer: nat)
    requires IsFooter(footer, total, trailer) && total % 256 == 0x39
    ensures footer[8] == 0x39 && footer[9] == total / 256 % 256
  {
    hide FromLittleEndian, MAGIC;
    var b := footer[8..16];
    LowByte(b);
    LowByte(b[1..]);
    var rest := FromLittleEndian(b[1..][1..]);
    assert total == b[0] + 256 * (b[1] + 256 * rest);
    assert b[0] == footer[8] && b[1] == footer[9];
  }

  lemma LowByte(b: seq<byte>)
    requires b != []
    ensures FromLittleEndian(b) == b[0] + 256 * FromLittleEndian(b[1..])
  {}

  // ----- steps taken one after another, within what is allowed

  function RunMishaps(s: Run): set<Mishap>
  {
    MishapsOf(Scattering(s))
  }

  /** `t` is reached from `s` by `steps`, and no state on the way has another mishap than those allowed. */
  ghost predicate Takes(s: Run, steps: seq<Step>, t: Run, allowed: set<Mishap>)
    decreases |steps|
  {
    && RunMishaps(s) <= allowed
    && if steps == [] then s == t else Enabled(s, steps[0]) && Takes(Apply(s, steps[0]), steps[1..], t, allowed)
  }

  lemma {:induction false} TakesIsRunning(s: Run, steps: seq<Step>, t: Run, allowed: set<Mishap>)
    requires Takes(s, steps, t, allowed)
    ensures RunsTo(s, steps, t) && RunMishaps(t) <= allowed
    decreases |steps|
  {
    hide Enabled, Apply, RunMishaps;
    if steps != [] { TakesIsRunning(Apply(s, steps[0]), steps[1..], t, allowed); }
  }

  lemma {:induction false} TakesMore(s: Run, steps: seq<Step>, t: Run, step: Step, allowed: set<Mishap>)
    requires Takes(s, steps, t, allowed) && Enabled(t, step) && RunMishaps(Apply(t, step)) <= allowed
    ensures Takes(s, steps + [step], Apply(t, step), allowed)
    decreases |steps|
  {
    hide Enabled, Apply, RunMishaps;
    if steps == [] {
      assert [step][1..] == [] && steps + [step] == [step];
      assert Takes(Apply(t, step), [], Apply(t, step), allowed);
    } else {
      TakesMore(Apply(s, steps[0]), steps[1..], t, step, allowed);
      assert (steps + [step])[1..] == steps[1..] + [step] && (steps + [step])[0] == steps[0];
    }
  }

  lemma TakesAllowed(s: Run, steps: seq<Step>, t: Run, allowed: set<Mishap>)
    requires Takes(s, steps, t, allowed)
    ensures RunMishaps(t) <= allowed
  {
    TakesIsRunning(s, steps, t, allowed);
  }

  lemma TakesNone(s: Run, allowed: set<Mishap>)
    requires s.footing == Intact
    ensures Takes(s, [], s, allowed)
  {}

  /** A step that leaves the append and its footing alone. */
  lemma TakesPlain(s0: Run, steps: seq<Step>, s: Run, step: Step, t: Run, allowed: set<Mishap>)
    requires Takes(s0, steps, s, allowed) && Enabled(s, step) && t == Apply(s, step)
    requires t.footing == s.footing && t.append == s.append
    ensures Takes(s0, steps + [step], t, allowed)
  {
    hide Enabled, Apply, Takes;
    TakesAllowed(s0, steps, s, allowed);
    TakesMore(s0, steps, s, step, allowed);
  }

  lemma BeginStep(s: Run, i: nat) returns (t: Run)
    requires Live(s, i) && s.fetchers[i].phase == Queued && s.received[i] < s.ranges[i].Len()
    requires (forall j :: 0 <= j < i ==> s.fetchers[j].phase != Queued) && (s.resumed ==> |s.fetchers| == 1)
    ensures Enabled(s, Begin(i)) && t == Apply(s, Begin(i))
    ensures t == s.(fetchers := s.fetchers[i := s.fetchers[i].(phase := Trying)])
  {
    t := Apply(s, Begin(i));
  }

  lemma ConnectStep(s: Run, i: nat) returns (t: Run)
    requires Live(s, i) && s.fetchers[i].phase == Trying && s.fetchers[i].offset < s.ranges[i].end
    requires s.fetchers[i].attempt <= s.retries
    ensures Enabled(s, Connect(i)) && t == Apply(s, Connect(i))
    ensures var f := s.fetchers[i];
            t == s.(fetchers := s.fetchers[i := f.(phase := Streaming, written := 0, attempt := f.attempt + 1)])
  {
    t := Apply(s, Connect(i));
  }

  lemma PutStep(s: Run, i: nat, n: nat) returns (t: Run)
    requires Live(s, i) && s.fetchers[i].phase == Streaming && s.fetchers[i].written == 0 && 0 < n
    requires s.fetchers[i].offset + n <= s.ranges[i].end <= |s.resource| <= |s.file|
    ensures Enabled(s, Put(i, n)) && t == Apply(s, Put(i, n))
    ensures t == s.(file := t.file, fetchers := s.fetchers[i := s.fetchers[i].(written := n)])
    ensures FileGains(s, t, s.fetchers[i].offset, n)
  {
    hide Overlay;
    var at := s.fetchers[i].offset;
    t := Apply(s, Put(i, n));
    OverlayAt(s.file, at, s.resource[at..at + n]);
  }

  lemma RecordStep(s: Run, i: nat, due: bool) returns (t: Run)
    requires Live(s, i) && s.fetchers[i].phase == Streaming && s.ranges[i].start <= s.fetchers[i].offset
    requires var f := s.fetchers[i]; 0 < f.offset + f.written - f.checkpointed < CHECKPOINT_BYTES
    ensures Enabled(s, Record(i, due)) && t == Apply(s, Record(i, due))
    ensures var f := s.fetchers[i]; var offset := f.offset + f.written;
            t == s.(received := s.received[i := offset - s.ranges[i].start], permit := true,
                    fetchers := s.fetchers[i := f.(offset := offset, written := 0,
                                                   phase := if due then Checkpointing else Streaming)])
  {
    t := Apply(s, Record(i, due));
  }

  /** Connecting, putting down `n` bytes and recording them with a checkpoint due. */
  lemma Fetches(s0: Run, steps: seq<Step>, s: Run, i: nat, n: nat, allowed: set<Mishap>)
    returns (more: seq<Step>, t: Run)
    requires Takes(s0, steps, s, allowed) && Live(s, i) && |s.resource| <= |s.file|
    requires s.fetchers[i].phase == Trying && s.fetchers[i].attempt <= s.retries
    requires s.ranges[i].start <= s.fetchers[i].offset && s.ranges[i].end <= |s.resource|
    requires 0 < n && s.fetchers[i].offset + n <= s.ranges[i].end
    requires 0 <= s.fetchers[i].offset - s.fetchers[i].checkpointed < CHECKPOINT_BYTES - n
    ensures Takes(s0, more, t, allowed) && more == steps + [Connect(i), Put(i, n), Record(i, true)]
    ensures var f := s.fetchers[i];
            && t == s.(file := t.file, permit := true, received := s.received[i := f.offset + n - s.ranges[i].start],
                       fetchers := s.fetchers[i := Fetcher(Checkpointing, f.offset + n, 0,
                                                           f.checkpointed, f.attempt + 1)])
            && FileGains(s, t, f.offset, n)
  {
    hide Takes, Enabled, Apply, FileGains;
    var a := ConnectStep(s, i);
    TakesPlain(s0, steps, s, Connect(i), a, allowed);
    var b := PutStep(a, i, n);
    TakesPlain(s0, steps + [Connect(i)], a, Put(i, n), b, allowed);
    t := RecordStep(b, i, true);
    TakesPlain(s0, steps + [Connect(i)] + [Put(i, n)], b, Record(i, true), t, allowed);
    more := steps + [Connect(i)] + [Put(i, n)] + [Record(i, true)];
    SameGain(s, a, b, t, s.fetchers[i].offset, n);
  }

  lemma SameGain(s: Run, a: Run, b: Run, t: Run, at: nat, n: nat)
    requires FileGains(a, b, at, n) && s.file == a.file && b.file == t.file && s.resource == a.resource
    ensures FileGains(s, t, at, n)
  {}

  /** `n` bytes of the resource at `at`, and everything else as it was. */
  ghost predicate FileGains(s: Run, t: Run, at: nat, n: nat)
  {
    && |s.resource| <= |t.file| == |s.file| && at + n <= |s.resource|
    && t.file[|s.resource|..] == s.file[|s.resource|..]
    && forall x :: 0 <= x < |s.resource| ==> t.file[x] == if at <= x < at + n then s.resource[x] else s.file[x]
  }

  /** Nothing lies beneath an append but what is allowed to. */
  predicate MayAppend(s: Run, allowed: set<Mishap>)
  {
    || s.footing in {Intact, Torn}
    || (s.footing == Gapped && PastGap in allowed)
    || (s.footing == Overlaid && OverTwo in allowed)
  }

  /** Taking the lock and putting down `k` bytes of the append. */
  lemma Appends(s0: Run, steps: seq<Step>, s: Run, i: nat, k: nat, allowed: set<Mishap>)
    returns (more: seq<Step>, t: Run)
    requires Takes(s0, steps, s, allowed) && Live(s, i) && |s.resource| <= |s.file| && s.append == Unlocked
    requires s.fetchers[i].phase in {Checkpointing, Closing}
    requires var size := |Stamped(|s.resource|, s.Trailer(), Encode(DoneLine(s.AppendRange(i))))|;
             0 < k <= size && |s.resource| + s.Trailer() + k <= MAX_FILE
    requires MayAppend(s, allowed)
    ensures Takes(s0, more, t, allowed) && more == steps + [Lock(i), PutControl(k)]
    ensures t == s.(file := t.file, append := Appending(i, s.AppendRange(i), k, s.file[|s.resource|..]))
    ensures |s.resource| <= |t.file| && t.file[..|s.resource|] == s.file[..|s.resource|]
    ensures t.file[|s.resource|..]
         == Overlay(s.file[|s.resource|..], s.Trailer(),
                    Stamped(|s.resource|, s.Trailer(), Encode(DoneLine(s.AppendRange(i))))[..k])
  {
    hide Takes, Encode, Stamped, DoneLine, Overlay, Enabled, Apply, RunMishaps;
    TakesAllowed(s0, steps, s, allowed);
    var a := LockStep(s, i);
    TakesMore(s0, steps, s, Lock(i), allowed);
    t := PutControlStep(s, a, i, k, allowed);
    TakesMore(s0, steps + [Lock(i)], a, PutControl(k), allowed);
    more := steps + [Lock(i)] + [PutControl(k)];
  }

  lemma LockStep(s: Run, i: nat) returns (t: Run)
    requires Live(s, i) && |s.resource| <= |s.file| && s.append == Unlocked
    requires s.fetchers[i].phase in {Checkpointing, Closing}
    ensures Enabled(s, Lock(i)) && t == Apply(s, Lock(i)) && RunMishaps(t) == RunMishaps(s)
    ensures t == s.(append := Appending(i, s.AppendRange(i), 0, s.file[|s.resource|..]))
  {
    t := Apply(s, Lock(i));
  }

  lemma PutControlStep(s: Run, a: Run, i: nat, k: nat, allowed: set<Mishap>) returns (t: Run)
    requires Live(s, i) && |s.resource| <= |s.file|
    requires a == s.(append := Appending(i, s.AppendRange(i), 0, s.file[|s.resource|..]))
    requires var size := |Stamped(|s.resource|, s.Trailer(), Encode(DoneLine(s.AppendRange(i))))|;
             0 < k <= size && |s.resource| + s.Trailer() + k <= MAX_FILE
    requires MayAppend(s, allowed)
    ensures Enabled(a, PutControl(k)) && t == Apply(a, PutControl(k)) && RunMishaps(t) <= allowed
    ensures t == s.(file := t.file, append := Appending(i, s.AppendRange(i), k, s.file[|s.resource|..]))
    ensures |s.resource| <= |t.file| && t.file[..|s.resource|] == s.file[..|s.resource|]
    ensures t.file[|s.resource|..]
         == Overlay(s.file[|s.resource|..], s.Trailer(),
                    Stamped(|s.resource|, s.Trailer(), Encode(DoneLine(s.AppendRange(i))))[..k])
  {
    hide Encode, Stamped, DoneLine, Overlay;
    t := Apply(a, PutControl(k));
    var total := |s.resource|;
    assert s.file == s.file[..total] + s.file[total..];
    assert a.Buffer()[0..k] == a.Buffer()[..k];
    OverlayAfter(s.file[..total], s.file[total..], s.Trailer(), a.Buffer()[..k]);
  }

  /** The append fails and the chunk goes on to its next attempt. */
  lemma Fails(s0: Run, steps: seq<Step>, s: Run, moves: bool, allowed: set<Mishap>) returns (more: seq<Step>, t: Run)
    requires Takes(s0, steps, s, allowed) && Enabled(s, FailControl(moves))
    requires s.FootingAfter(moves) in {Torn, Overlaid, Gapped}
    ensures Takes(s0, more, t, allowed) && more == steps + [FailControl(moves)]
    ensures var i := s.append.owner;
            t == s.(fetchers := s.fetchers[i := s.fetchers[i].(phase := Trying, written := 0)],
                    text := s.TextAfter(moves), footing := s.FootingAfter(moves), append := Unlocked)
  {
    hide Takes, Encode, Stamped, DoneLine;
    t := Apply(s, FailControl(moves));
    TakesMore(s0, steps, s, FailControl(moves), allowed);
    more := steps + [FailControl(moves)];
  }

  /** The buffer of a checkpoint that chunk `i` would write with `n` more bytes. */
  function CheckpointBuffer(s: Run, r: ByteRange): (b: seq<byte>)
    ensures |b| == |Encode(DoneLine(r))| + FOOTER
  {
    Stamped(s.Total(), s.Trailer(), Encode(DoneLine(r)))
  }

  /** Chunk `i` stands between attempts, or at its checkpoint, with its range's front recorded. */
  predicate Standing(s: Run, i: nat, n: nat)
  {
    && Live(s, i) && |s.resource| <= |s.file| && s.append == Unlocked
    && s.fetchers[i].phase == Trying && s.fetchers[i].attempt <= s.retries
    && s.ranges[i].start <= s.fetchers[i].offset && s.ranges[i].end <= |s.resource|
    && 0 < n && s.fetchers[i].offset + n <= s.ranges[i].end
    && 0 <= s.fetchers[i].offset - s.fetchers[i].checkpointed < CHECKPOINT_BYTES - n
  }

  function Front(s: Run, i: nat, n: nat): ByteRange
    requires Standing(s, i, n) && s.fetchers[i].offset + n <= U64_MAX
  {
    ByteRange(s.ranges[i].start, s.fetchers[i].offset + n)
  }

  /** `n` bytes fetched and `k` bytes of their checkpoint put down: the file, and everything else but the chunk. */
  ghost predicate Checkpointed(s: Run, t: Run, i: nat, n: nat, k: nat)
    requires Standing(s, i, n) && k <= |CheckpointBuffer(s, Front(s, i, n))|
  {
    && |s.resource| <= |t.file|
    && t.file[|s.resource|..] == Overlay(s.file[|s.resource|..], s.Trailer(), CheckpointBuffer(s, Front(s, i, n))[..k])
    && forall x :: 0 <= x < |s.resource| ==>
         t.file[x] == if s.fetchers[i].offset <= x < s.fetchers[i].offset + n then s.resource[x] else s.file[x]
  }

  /** ... at one byte past what was fetched, and in the trailer. */
  lemma CheckpointFacts(s: Run, t: Run, i: nat, n: nat, k: nat, x: nat, place: nat, b: seq<byte>, tail: seq<byte>)
    requires Standing(s, i, n) && k <= |CheckpointBuffer(s, Front(s, i, n))| && Checkpointed(s, t, i, n, k)
    requires s.fetchers[i].offset + n <= x < |s.resource| || x < s.fetchers[i].offset <= |s.resource|
    requires |s.resource| == NINES && b == CheckpointBuffer(s, Front(s, i, n))[..k]
    requires place == s.Trailer() && tail == s.file[NINES..]
    ensures NINES <= |t.file| && t.file[x] == s.file[x] && t.file[NINES..] == Overlay(tail, place, b)
  {
    hide Overlay, Encode, DoneLine, Stamped;
  }

  /** An attempt that fetches `n` bytes and puts down `k` bytes of their checkpoint. */
  function Attempt(i: nat, n: nat, k: nat): seq<Step>
  {
    [Connect(i), Put(i, n), Record(i, true)] + [Lock(i), PutControl(k)]
  }

  lemma CheckpointBegins(s0: Run, steps: seq<Step>, s: Run, i: nat, n: nat, k: nat, allowed: set<Mishap>)
    returns (more: seq<Step>, t: Run)
    requires Takes(s0, steps, s, allowed) && Standing(s, i, n)
    requires 0 < k <= |CheckpointBuffer(s, Front(s, i, n))| && |s.resource| + s.Trailer() + k <= MAX_FILE
    requires MayAppend(s, allowed)
    ensures Takes(s0, more, t, allowed)
    ensures more == steps + Attempt(i, n, k)
    ensures Checkpointed(s, t, i, n, k)
    ensures var f := s.fetchers[i];
            && t.append.Appending? && t.append.owner == i && t.append.range == Front(s, i, n) && t.append.reached == k
            && t == s.(file := t.file, permit := true, received := t.received, append := t.append,
                       fetchers := s.fetchers[i := Fetcher(Checkpointing, f.offset + n, 0,
                                                           f.checkpointed, f.attempt + 1)])
            && |t.received| == |s.received|
  {
    hide Takes, Encode, DoneLine, Stamped, Overlay;
    var m, a := Fetches(s0, steps, s, i, n, allowed);
    more, t := Appends(s0, m, a, i, k, allowed);
    forall x | 0 <= x < |s.resource|
      ensures t.file[x] == a.file[x]
    {
      assert t.file[x] == t.file[..|s.resource|][x] && a.file[x] == a.file[..|s.resource|][x];
    }
  }

  lemma CheckpointFails(s0: Run, steps: seq<Step>, s: Run, i: nat, n: nat, k: nat, moves: bool, allowed: set<Mishap>)
    returns (more: seq<Step>, t: Run)
    requires Takes(s0, steps, s, allowed) && Standing(s, i, n) && s.footing in {Intact, Torn}
    requires 0 < k && |s.resource| + s.Trailer() + k <= MAX_FILE
    requires var size := |CheckpointBuffer(s, Front(s, i, n))|; if moves then k < size - FOOTER else k < size
    ensures Takes(s0, more, t, allowed)
    ensures more == steps + Attempt(i, n, k) + [FailControl(moves)]
    ensures Checkpointed(s, t, i, n, k)
    ensures var f := s.fetchers[i];
            && t == s.(file := t.file, permit := true, received := t.received,
                       text := s.text + if moves then DoneLine(Front(s, i, n)) else "",
                       footing := if moves then Gapped else s.footing.Deeper(),
                       fetchers := s.fetchers[i := Fetcher(Trying, f.offset + n, 0, f.checkpointed, f.attempt + 1)])
            && |t.received| == |s.received|
  {
    hide Takes, Encode, DoneLine, Stamped, Overlay, Checkpointed;
    var m, a := CheckpointBegins(s0, steps, s, i, n, k, allowed);
    FailedFooting(a, moves);
    more, t := Fails(s0, m, a, moves, allowed);
    assert s.text + "" == s.text;
    SameCheckpoint(s, a, t, i, n, k);
  }

  lemma SameCheckpoint(s: Run, a: Run, t: Run, i: nat, n: nat, k: nat)
    requires Standing(s, i, n) && k <= |CheckpointBuffer(s, Front(s, i, n))| && Checkpointed(s, a, i, n, k)
    requires t.file == a.file
    ensures Checkpointed(s, t, i, n, k)
  {}

  lemma FailedFooting(s: Run, moves: bool)
    requires s.append.Appending? && s.footing in {Intact, Torn} && 0 < s.append.reached < |s.Buffer()|
    requires moves ==> s.append.reached < |Encode(DoneLine(s.append.range))|
    ensures s.FootingAfter(moves) == if moves then Gapped else s.footing.Deeper()
  {
    hide Encode, DoneLine, Stamped;
  }

  // ----- histories made of them

  ghost predicate LedBy(ws: seq<World>, allowed: set<Mishap>)
  {
    ws != [] && History(ws) && IsSteady(ws) && Confined(ws, allowed)
  }

  function Last(ws: seq<World>): World
    requires ws != []
  {
    ws[|ws| - 1]
  }

  lemma AddWorld(ws: seq<World>, w: World, allowed: set<Mishap>)
    requires LedBy(ws, allowed) && Next(Last(ws), w)
    requires MishapsOf(w) <= allowed && IsPlain(w) && KeepsOrigin(Last(ws), w)
    ensures LedBy(ws + [w], allowed)
  {
    hide Next, MishapsOf, IsPlain, KeepsOrigin;
  }

  /** Steps that a run takes go on from a history that has come to it. */
  lemma {:induction false} GoOn(ws: seq<World>, s: Run, steps: seq<Step>, t: Run, allowed: set<Mishap>)
    returns (more: seq<World>)
    requires LedBy(ws, allowed) && Last(ws) == Scattering(s) && Takes(s, steps, t, allowed)
    ensures LedBy(more, allowed) && Last(more) == Scattering(t)
    decreases |steps|
  {
    hide Enabled, Apply, LedBy, RunMishaps;
    if steps == [] {
      more := ws;
    } else {
      var u := Apply(s, steps[0]);
      TakesFirst(s, steps, t, allowed);
      RunsNext(s, steps[0]);
      AddWorld(ws, Scattering(u), allowed) by { assert RunMishaps(u) <= allowed; SameMishaps(u); }
      more := GoOn(ws + [Scattering(u)], u, steps[1..], t, allowed);
    }
  }

  lemma SameMishaps(s: Run)
    ensures MishapsOf(Scattering(s)) == RunMishaps(s)
  {}

  lemma TakesFirst(s: Run, steps: seq<Step>, t: Run, allowed: set<Mishap>)
    requires Takes(s, steps, t, allowed) && steps != []
    ensures Enabled(s, steps[0]) && RunMishaps(Apply(s, steps[0])) <= allowed
  {
    hide Enabled, Apply, RunMishaps;
  }

  lemma RunsNext(s: Run, step: Step)
    requires Enabled(s, step)
    ensures Next(Scattering(s), Scattering(Apply(s, step)))
  {
    hide Enabled, Apply, Opens, PutsSeed, StartsRun;
  }

  function Ones(n: nat): (ones: seq<byte>)
    ensures |ones| == n && forall i :: 0 <= i < n ==> ones[i] == 1
  {
    seq(n, _ => 1)
  }

  function Plain(resource: seq<byte>): Probe { Probe(resource, None, None) }

  function PlainOptions(parts: u32, resume: bool): Options { Options(parts, resume, 2, Md5) }

  function PlainText(): string { Header(None, None, Md5) }

  lemma PlainTextIs()
    ensures EndsLine(PlainText()) && |Encode(PlainText())| == 9
    ensures NotesIn(PlainText()) == Notes(None, None, Some(Md5), [])
  {
    hide NoteAll, Lines;
    HeaderNotes(None, None, Md5);
    assert PlainText() == "algo md5\n";
    EncodeAscii(PlainText());
  }

  /** A new download's run, about to begin. */
  function FreshRun(resource: seq<byte>, parts: u32): Run
    requires |resource| <= MAX_FILE
  {
    var ranges := PlanOf(0, |resource|, parts);
    StartRun(Plain(resource), PlainOptions(parts, false), ranges, seq(|ranges|, _ => 0), false,
             Zeros(|resource|) + Stamped(|resource|, 0, Encode(PlainText())), PlainText())
  }

  lemma BeginsFresh(resource: seq<byte>, parts: u32) returns (ws: seq<World>)
    requires |resource| <= 0x1_0000
    ensures LedBy(ws, {}) && Last(ws) == Scattering(FreshRun(resource, parts))
  {
    hide LedBy, Next, Encode, Stamped, PlanOf;
    var probe, options := Plain(resource), PlainOptions(parts, false);
    var total := |resource|;
    var w0, w1 := Idle([], resource, {}), Creating([], probe, options, 0);
    var w2 := Creating(Zeros(total), probe, options, 0);
    var w3 := Creating(Zeros(total) + Seed(w1), probe, options, |Seed(w1)|);
    var w4 := Scattering(FreshRun(resource, parts));
    PlainTextIs();
    StampedLength(total, 0, Encode(PlainText()));
    FirstStart(resource, parts);
    Seeds(resource, parts);
    Allocates(w1);
    OpensFresh(w3, resource, parts);
    ws := [w0];
    assert LedBy(ws, {}) by { OneWorld(w0); }
    AddWorld(ws, w1, {});
    AddWorld(ws + [w1], w2, {});
    AddWorld(ws + [w1] + [w2], w3, {});
    AddWorld(ws + [w1] + [w2] + [w3], w4, {}) by { NoMishaps(resource, parts); }
    ws := ws + [w1] + [w2] + [w3] + [w4];
  }

  lemma OneWorld(w: World)
    requires w.Idle? && w.file == [] && w.mishaps == {}
    ensures LedBy([w], {})
  {}

  lemma NoMishaps(resource: seq<byte>, parts: u32)
    requires |resource| <= MAX_FILE
    ensures MishapsOf(Scattering(FreshRun(resource, parts))) == {}
  {
    hide Encode, Stamped, PlanOf;
  }

  lemma FirstStart(resource: seq<byte>, parts: u32)
    requires |resource| <= 0x1_0000
    ensures Next(Idle([], resource, {}), Creating([], Plain(resource), PlainOptions(parts, false), 0))
  {
    hide Opens, PutsSeed, Encode, PlanOf, ReadOf;
    var w, w', probe, options := Idle([], resource, {}), Creating([], Plain(resource), PlainOptions(parts, false), 0),
      Plain(resource), PlainOptions(parts, false);
    NothingReads();
    var d := Fresh(PlanOf(0, |resource|, parts));
    assert Decides(w.file, |resource|, probe.validator, options, d) && Begins(w, w', probe, options, d);
    assert StartsRun(w, w', probe, options);
  }

  lemma Allocates(w: World)
    requires w.Creating? && w.reached == 0
    ensures Next(w, Creating(Zeros(|w.probe.resource|), w.probe, w.options, 0))
  {
    hide Opens, PutsSeed, StartsRun;
  }

  lemma Seeds(resource: seq<byte>, parts: u32)
    requires |resource| <= 0x1_0000
    ensures var w := Creating(Zeros(|resource|), Plain(resource), PlainOptions(parts, false), 0);
            Next(w, Creating(Zeros(|resource|) + Seed(w), w.probe, w.options, |Seed(w)|))
  {
    hide Next, Encode, Stamped, Overlay, PutsSeed;
    var w := Creating(Zeros(|resource|), Plain(resource), PlainOptions(parts, false), 0);
    PlainTextIs();
    StampedLength(|resource|, 0, Encode(PlainText()));
    PutsAll(w);
    SeedingIsNext(w, Creating(w.file + Seed(w), w.probe, w.options, |Seed(w)|), |Seed(w)|);
  }

  lemma SeedingIsNext(w: World, w': World, n: nat)
    requires PutsSeed(w, w', n)
    ensures Next(w, w')
  {
    hide StartsRun, PutsSeed, Opens, Enabled, Apply;
  }

  lemma PutsAll(w: World)
    requires w.Creating? && w.reached == 0 && |w.file| == |w.probe.resource| && 0 < |Seed(w)|
    requires |w.file| + |Seed(w)| <= MAX_FILE
    ensures PutsSeed(w, Creating(w.file + Seed(w), w.probe, w.options, |Seed(w)|), |Seed(w)|)
  {
    hide Encode, Stamped, Overlay, Header;
    WholeSeed(w);
  }

  lemma WholeSeed(w: World)
    requires w.Creating? && |w.file| == |w.probe.resource|
    ensures Overlay(w.file, |w.probe.resource|, Seed(w)[0..|Seed(w)|]) == w.file + Seed(w)
  {
    hide Encode, Stamped, Overlay;
    var seed := Seed(w);
    assert seed[0..|seed|] == seed;
    OverlayTail(w.file, |w.file|, seed);
    assert w.file[..|w.file|] == w.file;
  }

  lemma OpensFresh(w: World, resource: seq<byte>, parts: u32)
    requires |resource| <= 0x1_0000 && w.Creating?
    requires w == Creating(w.file, Plain(resource), PlainOptions(parts, false), |Seed(w)|)
    requires w.file == Zeros(|resource|) + Seed(w)
    ensures Next(w, Scattering(FreshRun(resource, parts)))
  {
    hide StartsRun, PutsSeed, Encode, Stamped, PlanOf;
    assert Opens(w, Scattering(FreshRun(resource, parts)));
  }

  // ----- a record nobody made, reached by a run

  const NINES: nat := 2617

  /** The run reads as recording `[0, n)` from the front, of which it has put down only the first `good` bytes. */
  ghost predicate Overstates(s: Run, text: string, good: nat, n: nat)
  {
    && good < n < |s.resource| <= |s.file| <= 0x2_0000 && Stable(s.file, |s.resource|, text)
    && NotesIn(text).validator == None
    && ByteRange(0, n) in NotesIn(text).done && (forall r :: r in NotesIn(text).done ==> r.end <= n)
    && s.file[good] != s.resource[good]
  }

  lemma OverstatedIsNotTrusted(s: Run, text: string, good: nat, n: nat)
    requires Overstates(s, text, good, n)
    ensures !Trusted(s.file, s.resource)
  {
    hide NotesIn, ReadOf, Stable;
    StableReads(s.file, |s.resource|, text);
    assert !Good(s.file, s.resource, 0, Min(n, |s.resource|));
  }

  lemma OnePlan(total: u64)
    requires 0 < total
    ensures PlanOf(0, total, 1) == [ByteRange(0, total)]
  {
    assert Boundary(0, total, 1, 0) == 0 && Boundary(0, total, 1, 1) == total;
  }

  lemma TwoPlan(total: u64, half: nat, parts: u32)
    requires total == 2 * half + 1 >= 2 && parts == 2
    ensures PlanOf(0, total, parts) == [ByteRange(0, half + 1), ByteRange(half + 1, total)]
  {
    assert total / parts == half && total % parts == 1;
    assert Boundary(0, total, parts, 1) == half + 1;
    assert Boundary(0, total, parts, parts) == total;
  }

  /** One flush fails with eight bytes of its line down; the chunk goes on, and its next append is whole. */
  lemma LostFlushOverstates(s0: Run) returns (steps: seq<Step>, s: Run, text: string)
    requires s0 == FreshRun(Ones(NINES), 1)
    ensures Takes(s0, steps, s, {PastGap}) && s.resource == Ones(NINES) && Overstates(s, text, 21, 29)
    ensures steps == [Begin(0)] + Attempt(0, 20, 8) + [FailControl(true)] + Attempt(0, 1, 42)
  {
    hide Takes, Encode, DoneLine, Stamped, Overlay, NotesIn, Stable, FreshRun, Attempt;
    var r1, r2, seen := ByteRange(0, 20), ByteRange(0, 21), ByteRange(0, 29);
    var seed := Stamped(NINES, 0, Encode(PlainText()));
    var b1, b2 := LineBuffer(9, r1), LineBuffer(19, r2);
    NineLines();
    TwentyOne();
    LineBufferSize(9, r1);
    LineBufferSize(19, r2);
    var begun := BeginsOne(s0, seed);
    var before, a := LosesFlush(s0, begun, seed, r1, b1[..8]);
    steps, s := ThenWhole(s0, before, a, r2, b2);
    text := PlainText() + DoneLine(seen) + DoneLine(r2);
    PlainTextIs();
    var base := SeededBase(s, seed);
    LostLineMisreads(base, NINES, PlainText(), r2);
    OverlayAfter(s.file[..NINES], seed, 9, b1[..8]);
    OverlayAfter(s.file[..NINES], Overlay(seed, 9, b1[..8]), 19, b2);
    assert s.file == s.file[..NINES] + s.file[NINES..];
    SameValidator(PlainText(), seen, r2);
  }

  /** What an append of `r` at `place` past the data writes. */
  function LineBuffer(place: nat, r: ByteRange): seq<byte> { Stamped(NINES, place, Encode(DoneLine(r))) }

  lemma LineBufferSize(place: nat, r: ByteRange)
    ensures |LineBuffer(place, r)| == |DoneLine(r)| + FOOTER && |Encode(DoneLine(r))| == |DoneLine(r)|
  {
    hide Encode, DoneLine, Stamped;
    StampedLength(NINES, place, Encode(DoneLine(r)));
    DoneLineBytes(r);
  }

  /** The data as they are, before the trailer as it began. */
  lemma SeededBase(s: Run, seed: seq<byte>) returns (base: seq<byte>)
    requires NINES <= |s.file| && seed == Stamped(NINES, 0, Encode(PlainText()))
    ensures base == s.file[..NINES] + seed && Stable(base, NINES, PlainText())
  {
    hide Encode, Stable, Stamped;
    PlainTextIs();
    CreatedStable(NINES, PlainText());
    StampedLength(NINES, 0, Encode(PlainText()));
    base := s.file[..NINES] + seed;
    StableByTail(Zeros(NINES) + seed, base, NINES, PlainText());
  }

  lemma BeginsOne(s0: Run, seed: seq<byte>) returns (s: Run)
    requires s0 == FreshRun(Ones(NINES), 1) && seed == Stamped(NINES, 0, Encode(PlainText()))
    ensures Takes(s0, [Begin(0)], s, {PastGap}) && Live(s, 0) && s.append == Unlocked && s.footing == Intact
    ensures s.ranges == [ByteRange(0, NINES)] && s.fetchers == [Fetcher(Trying, 0, 0, 0, 0)] && s.retries == 2
    ensures s.resource == Ones(NINES) && |s.file| == NINES + 41 && s.text == PlainText() && |Encode(s.text)| == 9
    ensures s.file[NINES..] == seed && s.file[21] == 0
  {
    hide Takes, Encode, DoneLine, Stamped, Overlay, FreshRun, Enabled, Apply;
    FreshOne(s0, seed);
    TakesNone(s0, {PastGap});
    s := BeginStep(s0, 0);
    TakesPlain(s0, [], s0, Begin(0), s, {PastGap});
    assert [] + [Begin(0)] == [Begin(0)];
    assert s.fetchers == [Fetcher(Trying, 0, 0, 0, 0)];
  }

  lemma LosesFlush(s0: Run, a: Run, seed: seq<byte>, r: ByteRange, b: seq<byte>) returns (steps: seq<Step>, s: Run)
    requires Takes(s0, [Begin(0)], a, {PastGap}) && Live(a, 0) && a.append == Unlocked && a.footing == Intact
    requires a.ranges == [ByteRange(0, NINES)] && a.fetchers == [Fetcher(Trying, 0, 0, 0, 0)] && a.retries == 2
    requires |a.resource| == NINES && |a.file| == NINES + 41 && a.text == PlainText() && |Encode(a.text)| == 9
    requires a.file[NINES..] == seed && a.file[21] == 0 && r == ByteRange(0, 20) && |DoneLine(r)| == 10
    requires |LineBuffer(9, r)| == 42 && b == LineBuffer(9, r)[..8]
    ensures Takes(s0, steps, s, {PastGap}) && Live(s, 0) && s.append == Unlocked && s.footing == Gapped
    ensures s.ranges == [ByteRange(0, NINES)] && s.fetchers == [Fetcher(Trying, 20, 0, 0, 1)] && s.retries == 2
    ensures s.resource == a.resource && |s.file| == NINES + 41 && |Encode(s.text)| == 19 && s.file[21] == 0
    ensures s.file[NINES..] == Overlay(seed, 9, b)
    ensures steps == [Begin(0)] + Attempt(0, 20, 8) + [FailControl(true)]
  {
    hide Takes, Encode, DoneLine, Stamped, Overlay, Enabled, Apply, Checkpointed, Attempt;
    LineBufferSize(9, r);
    assert Front(a, 0, 20) == r;
    steps, s := CheckpointFails(s0, [Begin(0)], a, 0, 20, 8, true, {PastGap});
    CheckpointFacts(a, s, 0, 20, 8, 21, 9, b, seed);
    EncodeConcat(PlainText(), DoneLine(r));
    OverlayAt(seed, 9, b);
    assert |s.file| == NINES + |s.file[NINES..]|;
  }

  lemma ThenWhole(s0: Run, before: seq<Step>, s: Run, r: ByteRange, b: seq<byte>) returns (steps: seq<Step>, t: Run)
    requires Takes(s0, before, s, {PastGap}) && Live(s, 0) && s.append == Unlocked && s.footing == Gapped
    requires s.ranges == [ByteRange(0, NINES)] && s.fetchers == [Fetcher(Trying, 20, 0, 0, 1)] && s.retries == 2
    requires |s.resource| == NINES && |s.file| == NINES + 41 && |Encode(s.text)| == 19 && s.file[21] == 0
    requires r == ByteRange(0, 21) && b == LineBuffer(19, r) && |b| == 42
    ensures Takes(s0, steps, t, {PastGap}) && t.resource == s.resource && NINES <= |t.file| <= 0x2_0000
    ensures t.file[21] == 0
    ensures t.file[NINES..] == Overlay(s.file[NINES..], 19, b)
    ensures steps == before + Attempt(0, 1, 42)
  {
    hide Takes, Encode, DoneLine, Stamped, Overlay, Enabled, Apply, Checkpointed, Attempt;
    assert Front(s, 0, 1) == r;
    LineBufferSize(19, r);
    steps, t := CheckpointBegins(s0, before, s, 0, 1, 42, {PastGap});
    assert b[..42] == b;
    CheckpointFacts(s, t, 0, 1, 42, 21, 19, b, s.file[NINES..]);
    OverlayAt(s.file[NINES..], 19, b);
    assert |t.file| == NINES + |t.file[NINES..]|;
  }

  /** What a new run over ones begins with. */
  lemma FreshFacts(s: Run, parts: u32, ranges: seq<ByteRange>)
    requires s == FreshRun(Ones(NINES), parts) && ranges == PlanOf(0, NINES, parts)
    ensures s.resource == Ones(NINES) && s.ranges == ranges && |s.fetchers| == |s.received| == |ranges|
    ensures s.retries == 2
    ensures forall i :: 0 <= i < |ranges| ==> s.fetchers[i] == StartFetcher(ranges[i], 0) && s.received[i] == 0
    ensures s.append == Unlocked && s.footing == Intact && s.text == PlainText() && !s.driven && !s.resumed
    ensures |Encode(s.text)| == 9 && |s.file| == NINES + 9 + FOOTER
    ensures s.file[NINES..] == Stamped(NINES, 0, Encode(PlainText()))
    ensures forall x :: 0 <= x < NINES ==> s.file[x] == 0
  {
    hide Encode, Stamped, PlanOf;
    PlainTextIs();
    StampedLength(NINES, 0, Encode(PlainText()));
    assert s.file == Zeros(NINES) + Stamped(NINES, 0, Encode(PlainText()));
  }

  lemma FreshOne(s: Run, seed: seq<byte>)
    requires s == FreshRun(Ones(NINES), 1) && seed == Stamped(NINES, 0, Encode(PlainText()))
    ensures s.ranges == [ByteRange(0, NINES)] && s.fetchers == [Fetcher(Queued, 0, 0, 0, 0)] && s.received == [0]
    ensures s.retries == 2
    ensures s.append == Unlocked && s.footing == Intact && s.text == PlainText() && !s.driven && !s.resumed
    ensures s.resource == Ones(NINES) && |s.file| == NINES + 41 && |Encode(s.text)| == 9
    ensures s.file[NINES..] == seed && s.file[21] == 0
  {
    hide Encode, Stamped, FreshRun, PlanOf;
    var ranges := [ByteRange(0, NINES)];
    OnePlan(NINES);
    FreshFacts(s, 1, ranges);
    assert s.fetchers[0] == Fetcher(Queued, 0, 0, 0, 0);
  }

  lemma FreshTwo(s: Run, seed: seq<byte>)
    requires s == FreshRun(Ones(NINES), 2) && seed == Stamped(NINES, 0, Encode(PlainText()))
    ensures s.ranges == [ByteRange(0, 1309), ByteRange(1309, NINES)] && |s.fetchers| == 2 && s.received == [0, 0]
    ensures s.retries == 2
    ensures s.fetchers[0] == Fetcher(Queued, 0, 0, 0, 0) && s.fetchers[1] == Fetcher(Queued, 1309, 0, 1309, 0)
    ensures s.append == Unlocked && s.footing == Intact && s.text == PlainText() && !s.driven && !s.resumed
    ensures s.resource == Ones(NINES) && |s.file| == NINES + 41 && |Encode(s.text)| == 9
    ensures s.file[NINES..] == seed && s.file[20] == 0
  {
    hide Encode, Stamped, FreshRun, PlanOf;
    var ranges := [ByteRange(0, 1309), ByteRange(1309, NINES)];
    TwoPlan(NINES, 1308, 2);
    FreshFacts(s, 2, ranges);
    assert s.fetchers[0] == StartFetcher(ranges[0], 0) && s.fetchers[1] == StartFetcher(ranges[1], 0);
  }

  lemma TwentyOne()
    ensures DoneLine(ByteRange(0, 21)) == "done 0 21\n"
  {
    hide Decimal, IsDecimal, Value;
    SmallDecimals();
    DecimalAppends(2, "", '2');
    DecimalAppends(21, "2", '1');
  }

  lemma SameValidator(text: string, a: ByteRange, b: ByteRange)
    requires EndsLine(text)
    ensures NotesIn(text + DoneLine(a) + DoneLine(b)) == NotesIn(text).(done := NotesIn(text).done + [a] + [b])
  {
    hide NotesIn, DoneLine;
    AppendRecords(text, a);
    AppendRecords(text + DoneLine(a), b);
  }

  /** Two writes fail part-way, the longer first, and a third append begins: no line is lost, and the end of one line
      runs on from the beginning of another. */
  lemma OverTwoOverstates(s0: Run) returns (steps: seq<Step>, s: Run, text: string)
    requires s0 == FreshRun(Ones(NINES), 2)
    ensures Takes(s0, steps, s, {OverTwo}) && s.resource == Ones(NINES) && Overstates(s, text, 20, 25)
    ensures steps == [Begin(0)] + [Begin(1)] + Attempt(1, 1, 42) + [FailControl(false)]
                     + Attempt(0, 15, 34) + [FailControl(false)] + Attempt(0, 5, 8)
  {
    hide Takes, Encode, DoneLine, Stamped, Overlay, NotesIn, Stable, ThriceTorn, FreshRun, Attempt;
    var r1, r2, r3, r := ByteRange(1309, 1310), ByteRange(0, 15), ByteRange(0, 20), ByteRange(0, 25);
    var seed := Stamped(NINES, 0, Encode(PlainText()));
    var b1, b2, b3 := LineBuffer(9, r1), LineBuffer(9, r2), LineBuffer(9, r3);
    SmallLines();
    LongLine();
    LineBufferSize(9, r1);
    LineBufferSize(9, r2);
    LineBufferSize(9, r3);
    var begun := BeginsTwo(s0, seed);
    var before, a := FailsOnce(s0, begun, seed, r1, b1[..42]);
    steps, s := FailsAgain(s0, before, a, Overlay(seed, 9, b1[..42]), r2, r3, b2[..34], b3[..8]);
    text := PlainText() + DoneLine(r);
    PlainTextIs();
    var base := SeededBase(s, seed);
    assert DoneLine(r3)[..8] + DoneLine(r2)[8..] == DoneLine(r);
    LinesLayTogether(base, NINES, PlainText(), r1, r2, r3, 8, r);
    assert Overlay(Overlay(Overlay(seed, 9, b1[..42]), 9, b2[..34]), 9, b3[..8])
        == ThriceTorn(seed, 9, b1[..42], b2[..34], b3[..8]) by { ThriceIs(seed, 9, b1[..42], b2[..34], b3[..8]); }
    ThriceAfter(s.file[..NINES], seed, 9, b1[..42], b2[..34], b3[..8]);
    assert s.file == s.file[..NINES] + s.file[NINES..];
    AppendRecords(PlainText(), r);
  }

  lemma ThriceIs(file: seq<byte>, at: nat, a: seq<byte>, b: seq<byte>, c: seq<byte>)
    ensures ThriceTorn(file, at, a, b, c) == Overlay(Overlay(Overlay(file, at, a), at, b), at, c)
  {
    hide Overlay;
  }

  lemma BeginsTwo(s0: Run, seed: seq<byte>) returns (s: Run)
    requires s0 == FreshRun(Ones(NINES), 2) && seed == Stamped(NINES, 0, Encode(PlainText()))
    ensures Takes(s0, [Begin(0)] + [Begin(1)], s, {OverTwo}) && Live(s, 1) && s.append == Unlocked
    ensures s.footing == Intact
    ensures s.ranges == [ByteRange(0, 1309), ByteRange(1309, NINES)] && s.retries == 2 && |s.fetchers| == 2
    ensures s.fetchers[0] == Fetcher(Trying, 0, 0, 0, 0) && s.fetchers[1] == Fetcher(Trying, 1309, 0, 1309, 0)
    ensures s.resource == Ones(NINES) && |s.file| == NINES + 41 && s.text == PlainText() && |Encode(s.text)| == 9
    ensures s.file[NINES..] == seed && s.file[20] == 0
  {
    hide Takes, Encode, DoneLine, Stamped, Overlay, FreshRun, Enabled, Apply;
    FreshTwo(s0, seed);
    TakesNone(s0, {OverTwo});
    var a := BeginStep(s0, 0);
    TakesPlain(s0, [], s0, Begin(0), a, {OverTwo});
    s := BeginStep(a, 1);
    TakesPlain(s0, [] + [Begin(0)], a, Begin(1), s, {OverTwo});
    assert [] + [Begin(0)] == [Begin(0)];
  }

  lemma FailsOnce(s0: Run, a: Run, seed: seq<byte>, r: ByteRange, b: seq<byte>) returns (steps: seq<Step>, s: Run)
    requires Takes(s0, [Begin(0)] + [Begin(1)], a, {OverTwo}) && Live(a, 1) && a.append == Unlocked
    requires a.footing == Intact
    requires a.ranges == [ByteRange(0, 1309), ByteRange(1309, NINES)] && a.retries == 2 && |a.fetchers| == 2
    requires a.fetchers[0] == Fetcher(Trying, 0, 0, 0, 0) && a.fetchers[1] == Fetcher(Trying, 1309, 0, 1309, 0)
    requires |a.resource| == NINES && |a.file| == NINES + 41 && a.text == PlainText() && |Encode(a.text)| == 9
    requires a.file[NINES..] == seed && a.file[20] == 0 && r == ByteRange(1309, 1310)
    requires |LineBuffer(9, r)| == 47 && b == LineBuffer(9, r)[..42]
    ensures Takes(s0, steps, s, {OverTwo}) && Live(s, 0) && s.append == Unlocked && s.footing == Torn
    ensures s.ranges == a.ranges && s.retries == 2 && |s.fetchers| == 2 && s.fetchers[0] == Fetcher(Trying, 0, 0, 0, 0)
    ensures s.resource == a.resource && |s.file| == NINES + 51 && s.text == PlainText() && s.file[20] == 0
    ensures s.file[NINES..] == Overlay(seed, 9, b)
    ensures steps == [Begin(0)] + [Begin(1)] + Attempt(1, 1, 42) + [FailControl(false)]
  {
    hide Takes, Encode, DoneLine, Stamped, Overlay, Enabled, Apply, Checkpointed, Attempt;
    LineBufferSize(9, r);
    assert Front(a, 1, 1) == r;
    steps, s := CheckpointFails(s0, [Begin(0)] + [Begin(1)], a, 1, 1, 42, false, {OverTwo});
    PlainStill(s);
    CheckpointFacts(a, s, 1, 1, 42, 20, 9, b, seed);
    OverlayAt(seed, 9, b);
    assert |s.file| == NINES + |s.file[NINES..]|;
  }

  lemma FailsAgain(s0: Run, before: seq<Step>, s: Run, tail: seq<byte>, r2: ByteRange, r3: ByteRange,
                   b2: seq<byte>, b3: seq<byte>)
    returns (steps: seq<Step>, t: Run)
    requires Takes(s0, before, s, {OverTwo}) && Live(s, 0) && s.append == Unlocked && s.footing == Torn
    requires |s.ranges| == 2 && s.ranges[0] == ByteRange(0, 1309) && s.fetchers[0] == Fetcher(Trying, 0, 0, 0, 0)
    requires s.retries == 2
    requires |s.resource| == NINES && |s.file| == NINES + 51 && s.text == PlainText() && s.file[20] == 0
    requires tail == s.file[NINES..] && r2 == ByteRange(0, 15) && r3 == ByteRange(0, 20)
    requires |LineBuffer(9, r2)| == |LineBuffer(9, r3)| == 42 && b2 == LineBuffer(9, r2)[..34]
    requires b3 == LineBuffer(9, r3)[..8]
    ensures Takes(s0, steps, t, {OverTwo}) && t.resource == s.resource && NINES <= |t.file| <= 0x2_0000
    ensures t.file[20] == 0
    ensures t.file[NINES..] == Overlay(Overlay(tail, 9, b2), 9, b3)
    ensures steps == before + Attempt(0, 15, 34) + [FailControl(false)] + Attempt(0, 5, 8)
  {
    hide Takes, Encode, DoneLine, Stamped, Overlay, Enabled, Apply, Checkpointed, Attempt;
    PlainTextIs();
    LineBufferSize(9, r2);
    LineBufferSize(9, r3);
    assert Front(s, 0, 15) == r2;
    var more, c := CheckpointFails(s0, before, s, 0, 15, 34, false, {OverTwo});
    PlainStill(c);
    CheckpointFacts(s, c, 0, 15, 34, 20, 9, b2, tail);
    assert Front(c, 0, 5) == r3;
    steps, t := CheckpointBegins(s0, more, c, 0, 5, 8, {OverTwo});
    CheckpointFacts(c, t, 0, 5, 8, 20, 9, b3, Overlay(tail, 9, b2));
    OverlayAt(tail, 9, b2);
    OverlayAt(Overlay(tail, 9, b2), 9, b3);
    assert |t.file| == NINES + |t.file[NINES..]|;
  }

  lemma PlainStill(s: Run)
    requires s.text == PlainText() + ""
    ensures s.text == PlainText()
  {}

  lemma LongLine()
    ensures DoneLine(ByteRange(1309, 1310)) == "done 1309 1310\n"
  {
    hide Decimal, IsDecimal, Value;
    DecimalAppends(1, "", '1');
    DecimalAppends(13, "1", '3');
    DecimalAppends(130, "13", '0');
    DecimalAppends(131, "13", '1');
    DecimalAppends(1309, "130", '9');
    DecimalAppends(1310, "131", '0');
  }

  lemma ThriceAfter(data: seq<byte>, rest: seq<byte>, p: nat, a: seq<byte>, b: seq<byte>, c: seq<byte>)
    ensures ThriceTorn(data + rest, |data| + p, a, b, c) == data + ThriceTorn(rest, p, a, b, c)
  {
    hide Overlay;
    OverlayAfter(data, rest, p, a);
    OverlayAfter(data, Overlay(rest, p, a), p, b);
    OverlayAfter(data, Overlay(Overlay(rest, p, a), p, b), p, c);
  }

  // ----- and a resume that believes it

  /** The run that takes such a file up again. */
  function ResumedRun(resource: seq<byte>, file: seq<byte>, text: string, n: nat): Run
    requires |resource| <= MAX_FILE
  {
    StartRun(Plain(resource), PlainOptions(1, true), [ByteRange(0, |resource|)], [n], true, file, text)
  }

  lemma Resumes(s: Run, text: string, good: nat, n: nat)
    requires Overstates(s, text, good, n)
    ensures Next(Idle(s.file, s.resource, MishapsOf(Scattering(s))),
                 Scattering(ResumedRun(s.resource, s.file, text, n)))
  {
    hide Opens, PutsSeed, Encode, ReadOf, NotesIn, Stable;
    var total := |s.resource|;
    var w, w' := Idle(s.file, s.resource, MishapsOf(Scattering(s))),
                 Scattering(ResumedRun(s.resource, s.file, text, n));
    var probe, options := Plain(s.resource), PlainOptions(1, true);
    StableReads(s.file, total, text);
    var plan := [ByteRange(0, total)];
    assert PlanOf(0, total, 1) == plan;
    var d := Resume(plan, [n]);
    CreditIsOverstated(NotesIn(text).done, total, n);
    assert Reopens(w, w', probe, options, plan, [n], text);
    assert Decides(w.file, total, probe.validator, options, d) && Begins(w, w', probe, options, d);
    assert StartsRun(w, w', probe, options);
  }

  lemma CreditIsOverstated(done: seq<ByteRange>, total: u64, n: nat)
    requires n < total && ByteRange(0, n) in done && forall r :: r in done ==> r.end <= n
    ensures IsCredit(ByteRange(0, total), done, n)
  {
    forall x: nat | x < n
      ensures Covered(done, x)
    {
      assert ByteRange(0, n) in done;
    }
  }

  /** It fetches what it believes to be missing, records the whole, and hashes the file as it is. */
  lemma ResumedRunSucceeds(resource: seq<byte>, file: seq<byte>, text: string, n: nat)
    returns (steps: seq<Step>, t: Run)
    requires 0 < n < |resource| <= |file| <= 0x2_0000 && Stable(file, |resource|, text)
    ensures Takes(ResumedRun(resource, file, text, n), steps, t, {})
    ensures Succeeded(t) && t.resource == resource && |resource| <= |t.file|
    ensures forall x :: 0 <= x < n ==> t.file[x] == file[x]
  {
    hide Takes, Encode, DoneLine, Stamped, Overlay, Stable, Apply, Enabled;
    var s, total := ResumedRun(resource, file, text, n), |resource|;
    StableShape(file, total, text);
    TakesNone(s, {});
    var a := BeginStep(s, 0);
    TakesPlain(s, [], s, Begin(0), a, {});
    var b := ConnectStep(a, 0);
    TakesPlain(s, [] + [Begin(0)], a, Connect(0), b, {});
    var c := PutStep(b, 0, total - n);
    TakesPlain(s, [] + [Begin(0)] + [Connect(0)], b, Put(0, total - n), c, {});
    var d := RecordStep(c, 0, false);
    TakesPlain(s, [] + [Begin(0)] + [Connect(0)] + [Put(0, total - n)], c, Record(0, false), d, {});
    steps := [] + [Begin(0)] + [Connect(0)] + [Put(0, total - n)] + [Record(0, false)];
    steps, t := ClosesAndReturns(s, steps, d);
    forall x | 0 <= x < n
      ensures t.file[x] == file[x]
    {
      assert t.file[x] == t.file[..total][x] == d.file[..total][x];
    }
  }

  lemma ClosesAndReturns(s0: Run, before: seq<Step>, s: Run) returns (steps: seq<Step>, t: Run)
    requires Takes(s0, before, s, {}) && s.append == Unlocked && s.footing == Intact && !s.driven && !s.failed
    requires 0 < |s.resource| <= |s.file| <= 0x2_0000 && |s.resource| + s.Trailer() + FOOTER == |s.file|
    requires s.ranges == [ByteRange(0, |s.resource|)] && s.received == [|s.resource|] && |s.fetchers| == 1
    requires s.fetchers[0].phase == Streaming && s.fetchers[0].offset == |s.resource| && s.verifier == Looking
    requires s.hashed == []
    ensures Takes(s0, steps, t, {})
    ensures Succeeded(t) && t.resource == s.resource && |s.resource| <= |t.file|
    ensures t.file[..|s.resource|] == s.file[..|s.resource|]
  {
    hide Takes, Encode, DoneLine, Stamped, Overlay, Apply, Enabled;
    var total := |s.resource|;
    var a, b := ReachStep(s);
    TakesPlain(s0, before, s, Break(0), a, {});
    TakesPlain(s0, before + [Break(0)], a, Reach(0), b, {});
    var size := |Stamped(total, b.Trailer(), Encode(DoneLine(b.AppendRange(0))))|;
    DoneLineBytes(b.AppendRange(0));
    DoneLineIsShort(b.AppendRange(0));
    StampedLength(total, b.Trailer(), Encode(DoneLine(b.AppendRange(0))));
    var more, c := Appends(s0, before + [Break(0)] + [Reach(0)], b, 0, size, {});
    OverlayAt(b.file[total..], b.Trailer(), c.Buffer()[..size]);
    var d := UnlockStep(c);
    TakesMore(s0, more, c, Unlock, {});
    var e, f := LooksOnce(d);
    TakesPlain(s0, more + [Unlock], d, EndDrive, e, {});
    TakesPlain(s0, more + [Unlock] + [EndDrive], e, Look, f, {});
    t := ReadsAll(f);
    TakesPlain(s0, more + [Unlock] + [EndDrive] + [Look], f, ReadSome(total), t, {});
    steps := more + [Unlock] + [EndDrive] + [Look] + [ReadSome(total)];
  }

  lemma ReachStep(s: Run) returns (a: Run, b: Run)
    requires Live(s, 0) && s.fetchers[0].phase == Streaming && s.fetchers[0].offset == s.ranges[0].end
    ensures Enabled(s, Break(0)) && a == Apply(s, Break(0)) && a == s.(fetchers := a.fetchers)
    ensures Enabled(a, Reach(0)) && b == Apply(a, Reach(0))
    ensures b == s.(fetchers := s.fetchers[0 := s.fetchers[0].(phase := Closing, written := 0)])
  {
    a := Apply(s, Break(0));
    b := Apply(a, Reach(0));
  }

  /** A whole append over an intact footer leaves its own. */
  lemma UnlockStep(s: Run) returns (t: Run)
    requires !s.driven && s.append.Appending? && s.append.owner == 0 && |s.fetchers| == 1
    requires s.fetchers[0].phase == Closing
    requires s.append.reached == |s.Buffer()| && s.footing == Intact
    requires |s.file| == s.Total() + s.Trailer() + |s.Buffer()|
    ensures Enabled(s, Unlock) && t == Apply(s, Unlock) && RunMishaps(t) == {}
    ensures t == s.(fetchers := [s.fetchers[0].(phase := Finished)], text := t.text, append := Unlocked)
  {
    hide Encode, DoneLine, Stamped;
    StampedLength(s.Total(), s.Trailer(), Encode(DoneLine(s.append.range)));
    DoneLineBytes(s.append.range);
    t := Apply(s, Unlock);
  }

  lemma LooksOnce(s: Run) returns (a: Run, b: Run)
    requires !s.driven && |s.fetchers| == 1 && s.fetchers[0].phase == Finished && s.verifier == Looking
    requires s.hashed == []
    requires 0 < |s.resource| <= U64_MAX && s.ranges == [ByteRange(0, |s.resource|)] && s.received == [|s.resource|]
    requires !s.failed
    ensures Enabled(s, EndDrive) && a == Apply(s, EndDrive) && a == s.(driven := true, permit := true)
    ensures Enabled(a, Look) && b == Apply(a, Look) && b == a.(verifier := Reading(|s.resource|))
  {
    OneChunkRun(|s.resource|, s.ranges);
    a := Apply(s, EndDrive);
    b := Apply(a, Look);
  }

  lemma ReadsAll(s: Run) returns (t: Run)
    requires s.verifier == Reading(|s.resource|) && s.hashed == [] && 0 < |s.resource| <= READ_BUFFER
    requires |s.resource| <= |s.file|
    requires s.ranges == [ByteRange(0, |s.resource|)]
    ensures Enabled(s, ReadSome(|s.resource|)) && t == Apply(s, ReadSome(|s.resource|))
    ensures t == s.(hashed := t.hashed, verifier := Returned(true))
  {
    assert s.ranges[0].start <= |s.hashed| && |s.hashed| + |s.resource| <= s.ranges[0].end;
    t := Apply(s, ReadSome(|s.resource|));
  }

  lemma OneChunkRun(total: nat, ranges: seq<ByteRange>)
    requires total <= U64_MAX && ranges == [ByteRange(0, total)]
    ensures ContiguousRun([total], ranges) == total
  {
    assert [total][1..] == [] && ranges[1..] == [];
  }

  /** From an absent file, each mishap is reached step by step, and the run ends in a file that is not to be
      trusted. */
  lemma RunsGoWrong(mishap: Mishap) returns (ws: seq<World>, s0: Run, steps: seq<Step>, s: Run)
    ensures LedBy(ws, {}) && Last(ws) == Scattering(s0) && RunInv(s0)
    ensures RunsTo(s0, steps, s) && Takes(s0, steps, s, {mishap}) && !Trusted(s.file, s.resource)
    ensures steps == match mishap
                     case PastGap => [Begin(0)] + Attempt(0, 20, 8) + [FailControl(true)] + Attempt(0, 1, 42)
                     case OverTwo => [Begin(0)] + [Begin(1)] + Attempt(1, 1, 42) + [FailControl(false)]
                                     + Attempt(0, 15, 34) + [FailControl(false)] + Attempt(0, 5, 8)
  {
    hide Takes, RunsTo, FreshRun, Overstates, Trusted, Attempt, RunInv, RunMishaps;
    var text;
    match mishap
    case PastGap =>
      s0 := FreshRun(Ones(NINES), 1);
      ws := BeginsFresh(Ones(NINES), 1);
      FreshIsSound(ws, s0);
      steps, s, text := LostFlushOverstates(s0);
      TakesIsRunning(s0, steps, s, {PastGap});
      OverstatedIsNotTrusted(s, text, 21, 29);
    case OverTwo =>
      s0 := FreshRun(Ones(NINES), 2);
      ws := BeginsFresh(Ones(NINES), 2);
      FreshIsSound(ws, s0);
      steps, s, text := OverTwoOverstates(s0);
      TakesIsRunning(s0, steps, s, {OverTwo});
      OverstatedIsNotTrusted(s, text, 20, 25);
  }

  lemma FreshIsSound(ws: seq<World>, s: Run)
    requires LedBy(ws, {}) && Last(ws) == Scattering(s)
    ensures RunInv(s)
  {
    hide RunInv;
    NothingToHeed(ws);
    RunInHistory(ws, |ws| - 1);
  }

  /** A history that has come to an overstated record goes on to a download that succeeds with a wrong byte. */
  lemma OverstatedDownloadSucceeds(ws: seq<World>, s: Run, text: string, good: nat, n: nat, allowed: set<Mishap>)
    returns (more: seq<World>)
    requires LedBy(ws, allowed) && Last(ws) == Scattering(s) && Overstates(s, text, good, n)
    ensures LedBy(more, allowed) && Last(more).Complete? && Last(more).file != Last(more).resource
  {
    hide LedBy, Next, Stable, NotesIn, Takes, StartsRun;
    var left := Idle(s.file, s.resource, MishapsOf(Scattering(s)));
    LastIsAllowed(ws, allowed);
    LeavesIdle(s);
    AddWorld(ws, left, allowed);
    var first := ResumedRun(s.resource, s.file, text, n);
    Resumes(s, text, good, n);
    AddWorld(ws + [left], Scattering(first), allowed);
    var steps, t := ResumedRunSucceeds(s.resource, s.file, text, n);
    TakesWithin(first, steps, t, allowed);
    more := GoOn(ws + [left] + [Scattering(first)], first, steps, t, allowed);
    var complete := Complete(t.file[..|t.resource|], t.resource, t.hashed);
    Completes(t);
    AddWorld(more, complete, allowed);
    more := more + [complete];
    assert complete.file[good] != complete.resource[good];
  }

  lemma LastIsAllowed(ws: seq<World>, allowed: set<Mishap>)
    requires LedBy(ws, allowed)
    ensures MishapsOf(Last(ws)) <= allowed
  {
    hide Next;
  }

  lemma LeavesIdle(s: Run)
    ensures Next(Scattering(s), Idle(s.file, s.resource, MishapsOf(Scattering(s))))
  {
    hide StartsRun, PutsSeed, Opens, Enabled, Apply;
  }

  lemma Completes(s: Run)
    requires Succeeded(s) && |s.resource| <= |s.file|
    ensures Next(Scattering(s), Complete(s.file[..|s.resource|], s.resource, s.hashed))
  {
    hide StartsRun, PutsSeed, Opens, Enabled, Apply;
  }

  lemma {:induction false} TakesWithin(s: Run, steps: seq<Step>, t: Run, allowed: set<Mishap>)
    requires Takes(s, steps, t, {})
    ensures Takes(s, steps, t, allowed)
    decreases |steps|
  {
    hide Enabled, Apply, RunMishaps;
    if steps != [] { TakesWithin(Apply(s, steps[0]), steps[1..], t, allowed); }
  }

  // ----- exactly when

  /** With failed appends doing nothing beyond `allowed`, whatever a reader finds is true. */
  ghost predicate RecordsHold(allowed: set<Mishap>)
  {
    forall ws: seq<World>, i: nat :: LedBy(ws, allowed) && i < |ws| ==> Trusted(FileOf(ws[i]), OriginOf(ws[i]))
  }

  /** ... and whatever a successful run leaves is the resource. */
  ghost predicate DownloadsHold(allowed: set<Mishap>)
  {
    forall ws: seq<World>, i: nat :: LedBy(ws, allowed) && i < |ws| && ws[i].Complete? ==>
      ws[i].file == ws[i].resource == ws[i].hashed
  }

  lemma {:induction false} HistoriesGoWrong(mishap: Mishap)
    returns (ws: seq<World>, s: Run, text: string, good: nat, n: nat)
    ensures LedBy(ws, {mishap}) && Last(ws) == Scattering(s) && Overstates(s, text, good, n)
  {
    hide LedBy, Takes, Overstates, FreshRun;
    var steps;
    match mishap
    case PastGap =>
      ws := BeginsFresh(Ones(NINES), 1);
      WiderIsLed(ws, {mishap});
      steps, s, text := LostFlushOverstates(FreshRun(Ones(NINES), 1));
      good, n := 21, 29;
      ws := GoOn(ws, FreshRun(Ones(NINES), 1), steps, s, {mishap});
    case OverTwo =>
      ws := BeginsFresh(Ones(NINES), 2);
      WiderIsLed(ws, {mishap});
      steps, s, text := OverTwoOverstates(FreshRun(Ones(NINES), 2));
      good, n := 20, 25;
      ws := GoOn(ws, FreshRun(Ones(NINES), 2), steps, s, {mishap});
  }

  lemma WiderIsLed(ws: seq<World>, allowed: set<Mishap>)
    requires exists fewer: set<Mishap> :: fewer <= allowed && LedBy(ws, fewer)
    ensures LedBy(ws, allowed)
  {
    hide History, MishapsOf;
  }

  /** Records hold over every history of a kind exactly when that kind allows neither mishap. */
  lemma RecordsHoldExactly(allowed: set<Mishap>)
    ensures RecordsHold(allowed) <==> allowed == {}
  {
    hide History, Trusted, Overstates, MishapsOf;
    if allowed == {} {
      forall ws: seq<World>, i: nat | LedBy(ws, allowed) && i < |ws|
        ensures Trusted(FileOf(ws[i]), OriginOf(ws[i]))
      {
        NothingToHeed(ws);
        RecordsAreTrue(ws, i);
      }
    } else {
      var mishap :| mishap in allowed;
      var ws, s, text, good, n := HistoriesGoWrong(mishap);
      WiderIsLed(ws, allowed);
      OverstatedIsNotTrusted(s, text, good, n);
      NotEmpty(ws, allowed);
      assert FileOf(ws[|ws| - 1]) == s.file && OriginOf(ws[|ws| - 1]) == s.resource;
    }
  }

  /** So do downloads: with neither mishap every one that succeeds is exact, and with either one some is not. */
  lemma DownloadsHoldExactly(allowed: set<Mishap>)
    ensures DownloadsHold(allowed) <==> allowed == {}
  {
    hide History, Overstates, MishapsOf;
    if allowed == {} {
      forall ws: seq<World>, i: nat | LedBy(ws, allowed) && i < |ws| && ws[i].Complete?
        ensures ws[i].file == ws[i].resource == ws[i].hashed
      {
        NothingToHeed(ws);
        DownloadsAreExact(ws, i);
      }
    } else {
      var mishap :| mishap in allowed;
      var ws, s, text, good, n := HistoriesGoWrong(mishap);
      WiderIsLed(ws, allowed);
      var more := OverstatedDownloadSucceeds(ws, s, text, good, n, allowed);
      NotEmpty(more, allowed);
      assert more[|more| - 1].Complete? && more[|more| - 1].file != more[|more| - 1].resource;
    }
  }

  lemma NotEmpty(ws: seq<World>, allowed: set<Mishap>)
    requires LedBy(ws, allowed)
    ensures ws != []
  {}

  lemma NothingToHeed(ws: seq<World>)
    requires LedBy(ws, {})
    ensures forall i :: 0 <= i < |ws| ==> HeededSince(ws, i) && MishapsOf(ws[i]) == {}
  {
    hide History, MishapsOf, HeededSince, IsSteady;
    forall i | 0 <= i < |ws|
      ensures MishapsOf(ws[i]) == {}
    {
      assert MishapsOf(ws[i]) <= {};
    }
    NoMishapIsHeeded(ws);
  }
}
