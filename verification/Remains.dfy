/** Appends over what failed ones left: one failure beneath is harmless, two are not. */
module Remains {
  import opened Common
  import opened Text
  import opened Plan
  import opened ControlFile
  import opened ControlLaws

  // ----- one failed append and a second

  /** What a failed append leaves at the end of a file whose next append goes to `place`: the last 32 bytes cannot be
      a footer, nor become one when something is written from `place` on. */
  predicate IsTornTail(file: seq<byte>, place: nat)
  {
    && FOOTER <= |file| && file[|file| - 32] != 0x58
    && (forall x :: |file| - 32 <= x < place && x < |file| ==> file[x] != 0x58)
    && (|file| > place + 32 ==>
          file[|file| - 26] != 0x4C && !(file[|file| - 24] == 0x0A && file[|file| - 23] == 0x64))
  }

  /** A line's bytes: digits, blanks, the word "done", and one line feed at the end. */
  lemma LineBytes(r: ByteRange)
    ensures var b := Encode(DoneLine(r));
            && |b| == |DoneLine(r)| >= 9 && b[|b| - 1] == 0x0A
            && forall i :: 0 <= i < |b| ==> b[i] != 0x58 && b[i] != 0x4C && (i < |b| - 1 ==> b[i] != 0x0A)
  {
    hide Encode, Decimal, IsDecimal, Value;
    DecimalIsAscii(r.start);
    DecimalIsAscii(r.end);
    PlainLine(r);
    EncodeAscii(DoneLine(r));
    DoneLineBytes(r);
    PlainChars(r);
  }

  lemma PlainChars(r: ByteRange)
    ensures var d := DoneLine(r); d[|d| - 1] == '\n' && 'L' !in d && forall i :: 0 <= i < |d| - 1 ==> d[i] != '\n'
  {
    hide Decimal, Value;
    DecimalIsAscii(r.start);
    DecimalIsAscii(r.end);
    var a, b, c, d := "done " + Decimal(r.start), " " + Decimal(r.end), "\n", DoneLine(r);
    assert d == a + b + c;
    assert forall i :: 0 <= i < |d| ==>
             d[i] == if i < |a| then a[i] else if i < |a| + |b| then b[i - |a|] else c[i - |a| - |b|];
  }

  lemma FooterShape(total: nat, trailer: nat)
    ensures var f := FooterBytes(total, trailer);
            f[..8] == MAGIC && f[8..16] == LittleEndian(total, 8) && forall i :: 24 <= i < 32 ==> f[i] == 0
  {
    hide LittleEndian;
  }

  lemma TornLeavesTail(file: seq<byte>, total: nat, trailer: nat, r: ByteRange, k: nat)
    requires |file| == total + trailer + FOOTER && 0 < k < |Encode(DoneLine(r))| + FOOTER
    ensures IsTornTail(Overlay(file, total + trailer, Stamped(total, trailer, Encode(DoneLine(r)))[..k]),
                       total + trailer)
  {
    hide Encode, DoneLine, Overlay, FooterBytes;
    var at, line := total + trailer, Encode(DoneLine(r));
    var data := Stamped(total, trailer, line)[..k];
    OverlayAt(file, at, data);
    LineBytes(r);
    FooterShape(total, trailer + |line|);
    var f := FooterBytes(total, trailer + |line|);
    assert forall i :: 0 <= i < k ==> data[i] == if i < |line| then line[i] else f[i - |line|];
    assert forall i :: 0 <= i < 8 ==> f[i] == f[..8][i];
  }

  /** ... and when its whole line is down and the writer has moved past it, the same holds of the new place, unless
      what lay beneath still sticks out. */
  lemma MovedLeavesTail(file: seq<byte>, total: nat, trailer: nat, r: ByteRange, k: nat)
    requires var line := Encode(DoneLine(r)); |line| <= k < |line| + FOOTER && total + trailer <= |file|
    requires |file| == total + trailer + FOOTER || IsTornTail(file, total + trailer)
    requires var line := Encode(DoneLine(r)); var place := total + trailer;
             |Overlay(file, place, Stamped(total, trailer, line)[..k])| < place + |line| + FOOTER
    requires |file| >= FOOTER
    ensures var line := Encode(DoneLine(r)); var place := total + trailer;
            IsTornTail(Overlay(file, place, Stamped(total, trailer, line)[..k]), place + |line|)
  {
    hide Encode, DoneLine, Overlay, FooterBytes;
    var at, line := total + trailer, Encode(DoneLine(r));
    var data := Stamped(total, trailer, line)[..k];
    OverlayAt(file, at, data);
    LineBytes(r);
    assert forall i :: 0 <= i < |line| ==> data[i] == line[i];
  }

  // ----- what little text can record

  function TotalLength(words: seq<string>): nat
  {
    if words == [] then 0 else |words[0]| + TotalLength(words[1..])
  }

  /** Words need their letters, and a blank between each two. */
  lemma {:induction false} WordsNeedRoom(s: string)
    ensures Fields(s) != [] ==> TotalLength(Fields(s)) + |Fields(s)| - 1 <= |s|
    ensures Fields(s) != [] && s != "" && IsWhite(s[0]) ==> TotalLength(Fields(s)) + |Fields(s)| <= |s|
    decreases |s|
  {
    hide IsWhite;
    if s != "" {
      if IsWhite(s[0]) {
        WordsNeedRoom(s[1..]);
      } else {
        var n := WordLen(s);
        WordsNeedRoom(s[n..]);
        assert Fields(s)[1..] == Fields(s[n..]);
      }
    }
  }

  /** A line that records a range has at least eight characters, and with just eight it begins with its "d". */
  lemma RecordingNeedsRoom(line: string)
    requires DoneOf(line) != []
    ensures |line| >= 8 && (|line| == 8 ==> line[0] == 'd')
  {
    hide Fields, ParseU64, IsWhite;
    var f := Fields(line);
    WordsNeedRoom(line);
    WordsAreNotEmpty(line);
    assert f[0] == "done" && |f| >= 3 && f[1] != "" && f[2] != "";
    var rest, end := f[1..], f[1..][1..];
    assert rest[0] == f[1] && end[0] == f[2];
    assert TotalLength(f) == 4 + TotalLength(rest);
    assert TotalLength(rest) == |f[1]| + TotalLength(end) && TotalLength(end) >= |f[2]|;
    if !IsWhite(line[0]) {
      FirstWord(line);
    }
  }

  lemma WordsAreNotEmpty(line: string)
    ensures forall i :: 0 <= i < |Fields(line)| ==> Fields(line)[i] != ""
  {}

  lemma FirstWord(line: string)
    requires line != "" && !IsWhite(line[0])
    ensures Fields(line) != [] && Fields(line)[0] != "" && Fields(line)[0][0] == line[0]
  {}

  lemma {:induction false} LittleTextRecordsNothing(v: string)
    requires |v| <= 8 && (|v| == 8 ==> v[0] != 'd')
    ensures DoneRanges(Lines(v)) == []
    decreases |v|
  {
    hide DoneOf, IsKeyed;
    if v != "" {
      var i := IndexOf(v, '\n');
      if i == |v| {
        LittleLine(v);
        DoneRangesOne(v);
      } else {
        LittleLine(StripReturn(v[..i]));
        LittleTextRecordsNothing(v[i + 1..]);
      }
    }
  }

  lemma LittleLine(line: string)
    requires |line| <= 8 && (|line| == 8 ==> line[0] != 'd')
    ensures DoneOf(line) == []
  {
    hide DoneOf;
    if DoneOf(line) != [] { RecordingNeedsRoom(line); }
  }

  /** A text that begins with the footer's magic, and goes on for nine characters at most, records nothing. */
  lemma MagicTextRecordsNothing(j: string)
    requires 8 <= |j| <= 17 && j[..8] == "XGETCTL1"
    requires |j| == 17 ==> !(j[8] == '\n' && j[9] == 'd')
    ensures DoneRanges(Lines(j)) == []
  {
    hide DoneOf, IsKeyed, Lines, DoneRanges, StripReturn, IndexOf;
    var i := MagicIsOneLine(j);
    FirstLine(j, i);
    if i == |j| {
      StartsWithX(j);
      DoneRangesOne(j);
    } else {
      var first, rest := StripReturn(j[..i]), j[i + 1..];
      StrippedX(j[..i]);
      StartsWithX(first);
      LittleTextRecordsNothing(rest);
      DoneRangesOne(first);
      DoneRangesConcat([first], Lines(rest));
    }
  }

  lemma MagicIsOneLine(j: string) returns (i: nat)
    requires |j| >= 8 && j[..8] == "XGETCTL1"
    ensures i == IndexOf(j, '\n') && 8 <= i <= |j| && j[0] == 'X' && (i < |j| ==> j[i] == '\n')
  {
    i := IndexOf(j, '\n');
    assert j[0] == j[..8][0];
    assert forall k :: 0 <= k < 8 ==> j[k] == j[..8][k];
  }

  lemma FirstLine(s: string, i: nat)
    requires s != "" && i == IndexOf(s, '\n') && i <= |s|
    ensures Lines(s) == if i == |s| then [s] else [StripReturn(s[..i])] + Lines(s[i + 1..])
  {
    hide StripReturn, IndexOf;
  }

  lemma StrippedX(line: string)
    requires line != "" && line[0] == 'X'
    ensures StripReturn(line) != "" && StripReturn(line)[0] == 'X'
  {}

  lemma StartsWithX(line: string)
    requires line != "" && line[0] == 'X'
    ensures DoneOf(line) == []
  {
    hide Fields, ParseU64, IsWhite;
    assert !IsWhite('X') by { XIsNotWhite(); }
    FirstWord(line);
  }

  lemma XIsNotWhite()
    ensures !IsWhite('X')
  {}

  // ----- what a second append can leave

  lemma EncodeInjective(s: string, t: string)
    requires Encode(s) == Encode(t)
    ensures s == t
  {
    DecodeEncode(s);
    DecodeEncode(t);
  }

  /** What is read is `text` and the first `d` bytes of a footer: its magic, and too few more to spell a record. */
  predicate IsJunk(read: seq<byte>, text: seq<byte>, footer: seq<byte>, d: int)
    requires |footer| == FOOTER
  {
    8 <= d <= 17 && read == text + footer[..d] && !(d == 17 && footer[8] == 0x0A && footer[9] == 0x64)
  }

  lemma JunkRecordsNothing(text: string, footer: seq<byte>, d: nat, read: string)
    requires |footer| == FOOTER && footer[..8] == MAGIC && EndsLine(text)
    requires IsJunk(Encode(read), Encode(text), footer, d)
    ensures DoneRanges(Lines(read)) == DoneRanges(Lines(text))
  {
    hide Encode, Lines, DoneRanges;
    var j := TextBeyond(text, footer[..d], read);
    JunkIsMagic(j, footer, d);
    MagicTextRecordsNothing(j);
    LinesConcat(text, j);
    DoneRangesConcat(Lines(text), Lines(j));
    assert DoneRanges(Lines(text)) + [] == DoneRanges(Lines(text));
  }

  lemma TextBeyond(text: string, more: seq<byte>, read: string) returns (j: string)
    requires Encode(read) == Encode(text) + more
    ensures read == text + j && Encode(j) == more
  {
    hide Encode;
    assert Encode(text) <= Encode(read);
    EncodedPrefix(text, read);
    j := read[|text|..];
    assert read == text + j;
    EncodeConcat(text, j);
    assert more == Encode(read)[|Encode(text)|..] == Encode(j);
  }

  lemma JunkIsMagic(j: string, footer: seq<byte>, d: nat)
    requires |footer| == FOOTER && footer[..8] == MAGIC
    requires 8 <= d <= 17 && !(d == 17 && footer[8] == 0x0A && footer[9] == 0x64) && Encode(j) == footer[..d]
    ensures |j| >= 8 && j[..8] == "XGETCTL1" && |j| <= 17
    ensures |j| == 17 ==> !(j[8] == '\n' && j[9] == 'd')
  {
    hide Encode;
    MagicText();
    assert footer[..d] == footer[..8] + footer[8..d];
    var w := TextBeyond("XGETCTL1", footer[8..d], j);
    EncodeBounds(w);
    if |w| == 9 {
      EncodeTight(w);
      assert Encode(w)[0] == footer[8] && Encode(w)[1] == footer[9];
    }
  }

  lemma MagicText()
    ensures Encode("XGETCTL1") == MAGIC
  {
    var s := "XGETCTL1";
    assert IsAscii(s);
    EncodeAscii(s);
  }

  lemma EncodeBounds(s: string)
    ensures |Encode(s)| >= |s|
  {}

  /** Text as long as its encoding is ASCII. */
  lemma {:induction false} EncodeTight(s: string)
    requires |Encode(s)| == |s|
    ensures forall i :: 0 <= i < |s| ==> Encode(s)[i] == s[i] as int
  {
    if s != "" {
      EncodeBounds(s[1..]);
      EncodeTight(s[1..]);
    }
  }

  lemma {:induction false} LittleEndianInjective(a: seq<byte>, b: seq<byte>)
    requires |a| == |b| && FromLittleEndian(a) == FromLittleEndian(b)
    ensures a == b
  {
    if a != [] {
      SameDigits(a[0], FromLittleEndian(a[1..]), b[0], FromLittleEndian(b[1..]));
      LittleEndianInjective(a[1..], b[1..]);
      assert a == [a[0]] + a[1..] && b == [b[0]] + b[1..];
    }
  }

  lemma SameDigits(a: byte, m: nat, b: byte, n: nat)
    requires a + 256 * m == b + 256 * n
    ensures a == b && m == n
  {}

  /** A file at rest on `read` after `k` bytes of a second append over a failed one: `read` goes beyond the old
      text and the new line by no more than a little of the new footer. */
  lemma SecondAppendEnds(file: seq<byte>, total: nat, text: seq<byte>, r: ByteRange, k: nat, read: seq<byte>)
    returns (d: nat)
    requires total + |text| <= |file| && file[total..total + |text|] == text
    requires IsTornTail(file, total + |text|) && 0 < k <= |Encode(DoneLine(r))| + FOOTER
    requires AtRest(Overlay(file, total + |text|, Stamped(total, |text|, Encode(DoneLine(r)))[..k]), total, read)
    requires total <= U64_MAX
    ensures var line := Encode(DoneLine(r)); var f := FooterBytes(total, |text| + |line|);
            if d == 0 then read == text + line else IsJunk(read, text + line, f, d)
  {
    hide Encode, DoneLine, Overlay, Stamped, FooterBytes, IsTornTail, AtRest;
    var line := Encode(DoneLine(r));
    d := MagicAt(file, total, text, r, k, read);
    ReadBytes(file, total, text, Stamped(total, |text|, line)[..k], |line| + d, read);
    StampedPrefix(total, |text|, line, k, |line| + d);
    var f := FooterBytes(total, |text| + |line|);
    assert read == text + line + f[..d];
    if d == 0 { assert read == text + line; }
  }

  /** `read` ends `d` bytes into the new footer. */
  lemma MagicAt(file: seq<byte>, total: nat, text: seq<byte>, r: ByteRange, k: nat, read: seq<byte>) returns (d: nat)
    requires total + |text| <= |file| && IsTornTail(file, total + |text|) && 0 < k <= |Encode(DoneLine(r))| + FOOTER
    requires AtRest(Overlay(file, total + |text|, Stamped(total, |text|, Encode(DoneLine(r)))[..k]), total, read)
    requires total <= U64_MAX
    ensures var line := Encode(DoneLine(r)); var f := FooterBytes(total, |text| + |line|);
            && |read| == |text| + |line| + d && |line| + d < k
            && (d == 0 || (8 <= d <= 17 && !(d == 17 && f[8] == 0x0A && f[9] == 0x64)))
  {
    hide Encode, DoneLine, Overlay, Stamped, FooterBytes, LittleEndian, IsFooter, IsTornTail;
    var at, line := total + |text|, Encode(DoneLine(r));
    var f := FooterBytes(total, |text| + |line|);
    var after := Overlay(file, at, Stamped(total, |text|, line)[..k]);
    LineBytes(r);
    FooterShape(total, |text| + |line|);
    var p := total + |read|;
    TotalIsRead(after[p..], f, total, |read|);
    forall x | x in {p, p + 6, p + 8, p + 9}
      ensures x < |after| == Max(|file|, at + k) && after[x] == Put(file, at, line, f, k, x)
    {
      AfterLength(file, total, |text|, line, k);
      ByteAfter(file, total, |text|, line, k, x);
    }
    MagicPlace(file, at, line, f, k, p, after);
    d := p - at - |line|;
  }

  lemma AfterLength(file: seq<byte>, total: nat, trailer: nat, line: seq<byte>, k: nat)
    requires total + trailer <= |file| && 0 < k <= |line| + FOOTER
    ensures |Overlay(file, total + trailer, Stamped(total, trailer, line)[..k])| == Max(|file|, total + trailer + k)
  {
    hide Overlay, FooterBytes;
    OverlayAt(file, total + trailer, Stamped(total, trailer, line)[..k]);
  }

  lemma StampedPrefix(total: nat, trailer: nat, line: seq<byte>, k: nat, m: nat)
    requires |line| <= m <= k <= |line| + FOOTER
    ensures Stamped(total, trailer, line)[..k][..m] == line + FooterBytes(total, trailer + |line|)[..m - |line|]
  {
    hide FooterBytes;
  }

  /** The byte at `x` after `k` bytes of an append. */
  function Put(file: seq<byte>, at: nat, line: seq<byte>, f: seq<byte>, k: nat, x: nat): byte
    requires at <= |file| && |f| == FOOTER && k <= |line| + FOOTER && x < Max(|file|, at + k)
  {
    if x < at || x >= at + k then file[x] else if x - at < |line| then line[x - at] else f[x - at - |line|]
  }

  lemma ByteAfter(file: seq<byte>, total: nat, trailer: nat, line: seq<byte>, k: nat, x: nat)
    requires total + trailer <= |file| && k <= |line| + FOOTER && x < Max(|file|, total + trailer + k)
    ensures |Overlay(file, total + trailer, Stamped(total, trailer, line)[..k])| == Max(|file|, total + trailer + k)
    ensures Overlay(file, total + trailer, Stamped(total, trailer, line)[..k])[x]
         == Put(file, total + trailer, line, FooterBytes(total, trailer + |line|), k, x)
  {
    hide Overlay, FooterBytes;
    OverlayAt(file, total + trailer, Stamped(total, trailer, line)[..k]);
  }

  /** Where the magic of a control that can be read lies: at the new footer, or within its first bytes but seven. */
  lemma MagicPlace(file: seq<byte>, at: nat, line: seq<byte>, f: seq<byte>, k: nat, p: nat, after: seq<byte>)
    requires at <= |file| && |f| == FOOTER && 0 < k <= |line| + FOOTER && IsTornTail(file, at)
    requires forall i :: 0 <= i < |line| ==> line[i] != 0x58 && line[i] != 0x4C
    requires f[..8] == MAGIC && forall i :: 24 <= i < 32 ==> f[i] == 0
    requires |after| == Max(|file|, at + k) == p + FOOTER
    requires forall x :: x in {p, p + 6, p + 8, p + 9} ==> after[x] == Put(file, at, line, f, k, x)
    requires after[p] == 0x58 && after[p + 6] == 0x4C && after[p + 8] == f[8] && after[p + 9] == f[9]
    ensures at + |line| <= p < at + k
    ensures var d := p - at - |line|; d == 0 || (8 <= d <= 17 && !(d == 17 && f[8] == 0x0A && f[9] == 0x64))
  {
    assert after[p] == Put(file, at, line, f, k, p) && after[p + 6] == Put(file, at, line, f, k, p + 6);
    assert after[p + 8] == Put(file, at, line, f, k, p + 8) && after[p + 9] == Put(file, at, line, f, k, p + 9);
    var d := p - at - |line|;
    assert forall i :: 0 <= i < 8 ==> f[i] == MAGIC[i] by { assert forall i :: 0 <= i < 8 ==> f[i] == f[..8][i]; }
  }

  lemma ReadBytes(file: seq<byte>, total: nat, text: seq<byte>, data: seq<byte>, m: nat, read: seq<byte>)
    requires total + |text| <= |file| && file[total..total + |text|] == text && m <= |data| && |read| == |text| + m
    requires AtRest(Overlay(file, total + |text|, data), total, read)
    ensures read == text + data[..m]
  {
    hide Overlay, IsFooter;
    var at := total + |text|;
    var after := Overlay(file, at, data);
    OverlayAt(file, at, data);
    forall i | 0 <= i < |read|
      ensures read[i] == (text + data[..m])[i]
    {
      assert read[i] == after[total..total + |read|][i] == after[total + i];
      assert i < |text| ==> file[total..at][i] == file[total + i];
    }
  }

  lemma TotalIsRead(g: seq<byte>, f: seq<byte>, total: nat, trailer: nat)
    requires IsFooter(g, total, trailer) && |f| == FOOTER && f[8..16] == LittleEndian(total, 8) && total <= U64_MAX
    ensures g[0] == 0x58 && g[6] == 0x4C && g[8] == f[8] && g[9] == f[9]
  {
    hide LittleEndian, FromLittleEndian;
    assert g[0] == g[..8][0] && g[6] == g[..8][6];
    U64RoundTrip(total);
    LittleEndianInjective(g[8..16], f[8..16]);
    assert g[8] == g[8..16][0] && f[8] == f[8..16][0] && g[9] == g[8..16][1] && f[9] == f[8..16][1];
  }

  /** One failed append beneath a second, however far each got:
      what can be read is what the second alone would leave. */
  lemma SecondAppendIsSafe(file: seq<byte>, total: nat, text: string, r: ByteRange, k: nat, x: ByteRange)
    requires total + |Encode(text)| <= |file| && file[total..total + |Encode(text)|] == Encode(text)
    requires IsTornTail(file, total + |Encode(text)|) && 0 < k <= |Encode(DoneLine(r))| + FOOTER
    requires total <= U64_MAX
    requires var after := Overlay(file, total + |Encode(text)|,
                                  Stamped(total, |Encode(text)|, Encode(DoneLine(r)))[..k]);
             ReadOf(after).Some? && ReadOf(after).value.total == total && x in ReadOf(after).value.notes.done
    ensures x == r || x in NotesIn(text).done
  {
    hide Encode, DoneLine, Overlay, Stamped, FooterBytes, ReadOf, NotesIn, AtRest, IsTornTail;
    var t, line := Encode(text), Encode(DoneLine(r));
    var after := Overlay(file, total + |t|, Stamped(total, |t|, line)[..k]);
    var read := ReadableIsStable(after);
    var d := SecondAppendEnds(file, total, t, r, k, Encode(read));
    EncodeConcat(text, DoneLine(r));
    var f := FooterBytes(total, |t| + |line|);
    if d == 0 {
      EncodeInjective(read, text + DoneLine(r));
    } else {
      FooterShape(total, |t| + |line|);
      LineEnds(text, r);
      JunkRecordsNothing(text + DoneLine(r), f, d, read);
      SameNotes(read, text + DoneLine(r));
    }
    AppendAddsOnly(text, r, x);
  }

  lemma LineEnds(text: string, r: ByteRange)
    ensures EndsLine(text + DoneLine(r))
  {
    hide Decimal;
  }

  lemma SameNotes(s: string, t: string)
    requires DoneRanges(Lines(s)) == DoneRanges(Lines(t))
    ensures NotesIn(s).done == NotesIn(t).done
  {
    NotedRanges(NO_NOTES, Lines(s));
    NotedRanges(NO_NOTES, Lines(t));
  }

  // ----- two failed appends and a third

  /** Three appends at one place, none of them whole: the file after each has left some prefix of its buffer. */
  function ThriceTorn(file: seq<byte>, at: nat, a: seq<byte>, b: seq<byte>, c: seq<byte>): seq<byte>
  {
    Overlay(Overlay(Overlay(file, at, a), at, b), at, c)
  }

  /** A longer append that got as far as the next one's end, the next one short of its reserved zeros, and the
      beginning of a third: the file is at rest on a last line that runs from the third's into the second's. */
  lemma LinesLayTogether(file: seq<byte>, total: nat, text: string,
                         r1: ByteRange, r2: ByteRange, r3: ByteRange, k: nat, r: ByteRange)
    requires Stable(file, total, text) && total + |Encode(text)| + |DoneLine(r1)| + FOOTER <= U64_MAX
    requires |DoneLine(r2)| < |DoneLine(r1)| && k <= |DoneLine(r2)| && k <= |DoneLine(r3)|
    requires DoneLine(r3)[..k] + DoneLine(r2)[k..] == DoneLine(r)
    ensures forall i | i in {r1, r2, r3} :: |Encode(DoneLine(i))| == |DoneLine(i)|
    ensures Stable(AfterThree(file, total, text, r1, r2, r3, k), total, text + DoneLine(r))
  {
    hide Encode, DoneLine, NotesIn, ReadOf, Overlay, FooterBytes, AtRest, ThriceTorn;
    DoneLineBytes(r1);
    DoneLineBytes(r2);
    DoneLineBytes(r3);
    StableLays(file, total, text);
    var t, n, line := Encode(text), |DoneLine(r2)|, Encode(DoneLine(r));
    var at := total + |t|;
    var a := Stamped(total, |t|, Encode(DoneLine(r1)))[..n + FOOTER];
    var b := Stamped(total, |t|, Encode(DoneLine(r2)))[..n + 24];
    var c := Stamped(total, |t|, Encode(DoneLine(r3)))[..k];
    Spliced(r2, r3, k, r);
    var f := FooterBytes(total, |t| + n);
    ThreeOverlays(file, at, a, b, c, n);
    var after := ThriceTorn(file, at, a, b, c);
    StampedPrefix(total, |t|, Encode(DoneLine(r2)), n + 24, n + 24);
    assert b[..n + 24] == b;
    assert c == Encode(DoneLine(r3))[..k];
    Regroup(file[..at], Encode(DoneLine(r3))[..k], Encode(DoneLine(r2)), f[..24], a[n + 24..], k);
    EncodeConcat(text, DoneLine(r));
    LaidAtRest(after, file[..total], t + line, f, a[n + 24..]);
  }

  /** The file those three appends leave. */
  function AfterThree(file: seq<byte>, total: nat, text: string,
                      r1: ByteRange, r2: ByteRange, r3: ByteRange, k: nat): seq<byte>
    requires var n := |DoneLine(r2)|; n < |DoneLine(r1)| && k <= |DoneLine(r3)|
  {
    DoneLineBytes(r1);
    DoneLineBytes(r2);
    DoneLineBytes(r3);
    var t, n := |Encode(text)|, |DoneLine(r2)|;
    ThriceTorn(file, total + t,
               Stamped(total, t, Encode(DoneLine(r1)))[..n + FOOTER],
               Stamped(total, t, Encode(DoneLine(r2)))[..n + 24],
               Stamped(total, t, Encode(DoneLine(r3)))[..k])
  }

  /** ... and so it reads as a control with that line. */
  lemma LinesRunTogether(file: seq<byte>, total: nat, text: string,
                         r1: ByteRange, r2: ByteRange, r3: ByteRange, k: nat, r: ByteRange)
    requires Stable(file, total, text) && total + |Encode(text)| + |DoneLine(r1)| + FOOTER <= U64_MAX
    requires |DoneLine(r2)| < |DoneLine(r1)| && k <= |DoneLine(r2)| && k <= |DoneLine(r3)|
    requires DoneLine(r3)[..k] + DoneLine(r2)[k..] == DoneLine(r)
    ensures ReadOf(AfterThree(file, total, text, r1, r2, r3, k)) == Some(Control(total, NotesIn(text + DoneLine(r))))
  {
    hide Encode, DoneLine, NotesIn, ReadOf, AfterThree, Stable;
    LinesLayTogether(file, total, text, r1, r2, r3, k, r);
    StableReads(AfterThree(file, total, text, r1, r2, r3, k), total, text + DoneLine(r));
  }

  lemma StableLays(file: seq<byte>, total: nat, text: string)
    requires Stable(file, total, text)
    ensures |file| == total + |Encode(text)| + FOOTER && file[..total + |Encode(text)|] == file[..total] + Encode(text)
  {
    hide Encode, IsFooter;
  }

  lemma Regroup(front: seq<byte>, c: seq<byte>, line: seq<byte>, f: seq<byte>, rest: seq<byte>, k: nat)
    requires k <= |line|
    ensures front + c + (line + f)[k..] + rest == front + (c + line[k..]) + f + rest
  {
    assert (line + f)[k..] == line[k..] + f;
  }

  lemma LaidAtRest(file: seq<byte>, data: seq<byte>, text: seq<byte>, f: seq<byte>, rest: seq<byte>)
    requires |data| + |text| + FOOTER <= U64_MAX && f == FooterBytes(|data|, |text|) && |rest| == 8
    requires file == data + text + f[..24] + rest
    ensures AtRest(file, |data|, text)
  {
    hide FooterBytes;
    var front := data + text;
    assert file[..|front| + 24] == front + f[..24];
    MagicAndLengthsSuffice(file, |data|, |text|, front);
    assert file[|data|..|data| + |text|] == text;
  }

  lemma Spliced(r2: ByteRange, r3: ByteRange, k: nat, r: ByteRange)
    requires k <= |DoneLine(r2)| && k <= |DoneLine(r3)| && DoneLine(r3)[..k] + DoneLine(r2)[k..] == DoneLine(r)
    ensures k <= |Encode(DoneLine(r2))| && k <= |Encode(DoneLine(r3))|
    ensures Encode(DoneLine(r3))[..k] + Encode(DoneLine(r2))[k..] == Encode(DoneLine(r))
    ensures |Encode(DoneLine(r))| == |DoneLine(r2)|
  {
    hide DoneLine, Encode;
    PlainLine(r2);
    PlainLine(r3);
    PlainLine(r);
    EncodeAscii(DoneLine(r2));
    EncodeAscii(DoneLine(r3));
    EncodeAscii(DoneLine(r));
    var a, b, c := DoneLine(r3), DoneLine(r2), DoneLine(r);
    assert |c| == |b| && forall i :: 0 <= i < |c| ==> c[i] == if i < k then a[i] else b[i];
  }

  lemma ThreeOverlays(file: seq<byte>, at: nat, a: seq<byte>, b: seq<byte>, c: seq<byte>, n: nat)
    requires |file| == at + FOOTER && n > 0 && |a| == n + FOOTER && |b| == n + 24 && |c| <= n
    ensures ThriceTorn(file, at, a, b, c) == file[..at] + c + b[|c|..] + a[n + 24..]
  {
    var first := Overlay(file, at, a);
    assert first == file[..at] + a;
    var second := Overlay(first, at, b);
    assert second == file[..at] + b + a[n + 24..];
    if c != [] { assert second[at + |c|..] == b[|c|..] + a[n + 24..]; }
  }

  /** A footer's reserved bytes are never looked at. */
  lemma MagicAndLengthsSuffice(file: seq<byte>, total: nat, trailer: nat, front: seq<byte>)
    requires |file| == |front| + FOOTER && total <= U64_MAX && trailer <= U64_MAX
    requires file[..|front| + 24] == front + FooterBytes(total, trailer)[..24]
    ensures IsFooter(file[|front|..], total, trailer)
  {
    hide LittleEndian, FromLittleEndian;
    FooterBytesAreFooter(total, trailer);
    var f, g := FooterBytes(total, trailer), file[|front|..];
    assert g[..24] == file[..|front| + 24][|front|..] == f[..24];
    assert g[..8] == g[..24][..8] && g[8..16] == g[..24][8..16] && g[16..24] == g[..24][16..24];
    assert f[..8] == f[..24][..8] && f[8..16] == f[..24][8..16] && f[16..24] == f[..24][16..24];
  }

  /** For every file and text: two failed appends and the beginning of a third can leave a record that none of the
      three made, here of 25 bytes when only 20 were ever recorded from the front. */
  lemma FailedAppendsCanMisrecord(file: seq<byte>, total: nat, text: string)
    requires Stable(file, total, text) && EndsLine(text) && total + |Encode(text)| + 47 + FOOTER <= U64_MAX
    ensures var r1, r2, r3 := ByteRange(90, 100), ByteRange(0, 15), ByteRange(0, 20);
            && |DoneLine(r1)| > |DoneLine(r2)| == |DoneLine(r3)| == 10
            && ReadOf(AfterThree(file, total, text, r1, r2, r3, 8))
               == Some(Control(total, NotesIn(text).(done := NotesIn(text).done + [ByteRange(0, 25)])))
  {
    hide Encode, ReadOf, NotesIn, Stable, AfterThree;
    SmallLines();
    var r1, r2, r3, r := ByteRange(90, 100), ByteRange(0, 15), ByteRange(0, 20), ByteRange(0, 25);
    assert DoneLine(r3)[..8] + DoneLine(r2)[8..] == DoneLine(r);
    LinesRunTogether(file, total, text, r1, r2, r3, 8, r);
    AppendRecords(text, r);
  }

  lemma DecimalAppends(n: nat, front: string, digit: char)
    requires digit == "0123456789"[n % 10] && front == if n < 10 then "" else Decimal(n / 10)
    ensures Decimal(n) == front + [digit]
  {
    var d := n % 10;
    assert (d + '0' as int) as char == "0123456789"[d];
  }

  lemma SmallDecimals()
    ensures Decimal(0) == "0" && Decimal(15) == "15" && Decimal(20) == "20" && Decimal(25) == "25"
    ensures Decimal(90) == "90" && Decimal(100) == "100"
  {
    hide Decimal, IsDecimal, Value;
    DecimalAppends(0, "", '0');
    DecimalAppends(1, "", '1');
    DecimalAppends(2, "", '2');
    DecimalAppends(9, "", '9');
    DecimalAppends(10, "1", '0');
    DecimalAppends(15, "1", '5');
    DecimalAppends(20, "2", '0');
    DecimalAppends(25, "2", '5');
    DecimalAppends(90, "9", '0');
    DecimalAppends(100, "10", '0');
  }

  lemma SmallLines()
    ensures DoneLine(ByteRange(0, 15)) == "done 0 15\n" && DoneLine(ByteRange(0, 20)) == "done 0 20\n"
    ensures DoneLine(ByteRange(0, 25)) == "done 0 25\n" && DoneLine(ByteRange(90, 100)) == "done 90 100\n"
  {
    hide Decimal, IsDecimal, Value;
    SmallDecimals();
  }
}
