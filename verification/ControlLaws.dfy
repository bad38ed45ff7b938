/** What the control file promises: torn appends are never misread, and what is recorded is read back. */
module ControlLaws {
  import opened Common
  import opened Text
  import opened Plan
  import opened ControlFile

  // ----- torn appends

  lemma DecimalIsAscii(n: nat)
    ensures IsAscii(Decimal(n)) && IsWord(Decimal(n)) && 'X' !in Decimal(n) && '\n' !in Decimal(n)
  {}

  lemma DoneLineBytes(r: ByteRange)
    ensures |Encode(DoneLine(r))| == |DoneLine(r)| >= 9
    ensures forall i :: 0 <= i < |Encode(DoneLine(r))| ==> Encode(DoneLine(r))[i] != MAGIC[0]
  {
    DecimalIsAscii(r.start);
    DecimalIsAscii(r.end);
    PlainLine(r);
    EncodeAscii(DoneLine(r));
  }

  function Pow10(w: nat): nat { if w == 0 then 1 else 10 * Pow10(w - 1) }

  lemma {:induction false} DecimalIsShort(n: nat, w: nat)
    requires w > 0 && n < Pow10(w)
    ensures |Decimal(n)| <= w
  {
    if n >= 10 { DecimalIsShort(n / 10, w - 1); }
  }

  lemma FiveDigits(w: nat)
    ensures Pow10(w + 5) == 100000 * Pow10(w)
  {
    assert Pow10(w + 5) == 10 * Pow10(w + 4) && Pow10(w + 4) == 10 * Pow10(w + 3) && Pow10(w + 3) == 10 * Pow10(w + 2);
    assert Pow10(w + 2) == 10 * Pow10(w + 1) && Pow10(w + 1) == 10 * Pow10(w);
  }

  lemma DoneLineIsShort(r: ByteRange)
    ensures |DoneLine(r)| <= 47
  {
    FiveDigits(0);
    FiveDigits(5);
    FiveDigits(10);
    FiveDigits(15);
    DecimalIsShort(r.start, 20);
    DecimalIsShort(r.end, 20);
  }

  lemma PlainLine(r: ByteRange)
    ensures IsAscii(DoneLine(r)) && 'X' !in DoneLine(r)
  {
    DecimalIsAscii(r.start);
    DecimalIsAscii(r.end);
    var a, b, c, d := "done " + Decimal(r.start), " " + Decimal(r.end), "\n", DoneLine(r);
    assert d == a + b + c;
    assert forall i :: 0 <= i < |d| ==>
             d[i] == if i < |a| then a[i] else if i < |a| + |b| then b[i - |a|] else c[i - |a| - |b|];
  }

  /** However much of an append reached the file: nothing of it, and the old control is still there;
      all of it, and the new control is; anything between, and the file has no control at all. */
  lemma TornAppend(file: seq<byte>, total: nat, text: string, r: ByteRange, k: nat)
    requires Stable(file, total, text)
    requires total + |Encode(text)| + |DoneLine(r)| + FOOTER <= U64_MAX
    requires k <= |DoneLine(r)| + FOOTER
    ensures |DoneLine(r)| == |Encode(DoneLine(r))|
    ensures var after := Overlay(file, total + |Encode(text)|,
                                 Stamped(total, |Encode(text)|, Encode(DoneLine(r)))[..k]);
            ReadOf(after) == if k == 0 then ReadOf(file)
                             else if k == |DoneLine(r)| + FOOTER then Some(Control(total, NotesIn(text + DoneLine(r))))
                             else None
  {
    hide Encode, Decode, NotesIn, DoneLine, ReadOf, IsFooter, MAGIC, FooterBytes;
    DoneLineBytes(r);
    var line, t := Encode(DoneLine(r)), |Encode(text)|;
    var buffer := Stamped(total, t, line);
    if k == |buffer| {
      assert buffer[..k] == buffer;
      AppendedAtRest(file, total, Encode(text), line);
      EncodeConcat(text, DoneLine(r));
      StableReads(Overlay(file, total + t, buffer), total, text + DoneLine(r));
    } else if k > 0 {
      TornUnreadable(file, total, t, line, k);
    }
  }

  /** The last 32 bytes of a torn file begin inside the line, where no magic can begin. */
  lemma TornOffMagic(file: seq<byte>, total: nat, trailer: nat, line: seq<byte>, k: nat)
    requires |file| == total + trailer + FOOTER && |line| > 0 && 0 < k < |line| + FOOTER
    requires forall i :: 0 <= i < |line| ==> line[i] != MAGIC[0]
    ensures var after := Overlay(file, total + trailer, Stamped(total, trailer, line)[..k]);
            |after| >= FOOTER && after[|after| - FOOTER] != MAGIC[0]
  {
    hide Overlay;
    var at := total + trailer;
    var data := Stamped(total, trailer, line)[..k];
    var after := Overlay(file, at, data);
    OverlayAt(file, at, data);
    var first := |after| - FOOTER;
    assert after[first] == data[first - at];
    assert data[first - at] == line[first - at];
  }

  lemma OffMagicUnreadable(file: seq<byte>)
    requires |file| >= FOOTER && file[|file| - FOOTER] != MAGIC[0]
    ensures ReadOf(file) == None
  {
    assert file[|file| - FOOTER..][..8][0] == file[|file| - FOOTER];
  }

  lemma TornUnreadable(file: seq<byte>, total: nat, trailer: nat, line: seq<byte>, k: nat)
    requires |file| == total + trailer + FOOTER && |line| > 0 && 0 < k < |line| + FOOTER
    requires forall i :: 0 <= i < |line| ==> line[i] != MAGIC[0]
    ensures ReadOf(Overlay(file, total + trailer, Stamped(total, trailer, line)[..k])) == None
  {
    TornOffMagic(file, total, trailer, line, k);
    OffMagicUnreadable(Overlay(file, total + trailer, Stamped(total, trailer, line)[..k]));
  }

  // ----- which ranges a text records

  function DoneRanges(lines: seq<string>): seq<ByteRange>
  {
    if lines == [] then [] else DoneOf(lines[0]) + DoneRanges(lines[1..])
  }

  lemma {:induction false} NotedRanges(n: Notes, lines: seq<string>)
    ensures NoteAll(n, lines).done == n.done + DoneRanges(lines)
    decreases |lines|
  {
    hide DoneOf, Note;
    if lines != [] {
      NotedRange(n, lines[0]);
      NotedRanges(Note(n, lines[0]), lines[1..]);
    }
  }

  lemma NotedRange(n: Notes, line: string)
    ensures Note(n, line).done == n.done + DoneOf(line)
  {
    hide Fields, ParseU64;
  }

  lemma {:induction false} DoneRangesConcat(a: seq<string>, b: seq<string>)
    ensures DoneRanges(a + b) == DoneRanges(a) + DoneRanges(b)
  {
    hide DoneOf;
    if a == [] {
      assert a + b == b;
    } else {
      DoneRangesConcat(a[1..], b);
      assert (a + b)[1..] == a[1..] + b && (a + b)[0] == a[0];
      var head := DoneOf(a[0]);
      assert head + (DoneRanges(a[1..]) + DoneRanges(b)) == (head + DoneRanges(a[1..])) + DoneRanges(b);
    }
  }

  /** Two word lists whose boundary words have run together. */
  function Glue(a: seq<string>, b: seq<string>): seq<string>
    requires a != [] && b != []
  {
    a[..|a| - 1] + [a[|a| - 1] + b[0]] + b[1..]
  }

  lemma GlueCons(w: string, a: seq<string>, b: seq<string>)
    requires a != [] && b != []
    ensures Glue([w] + a, b) == [w] + Glue(a, b)
  {}

  lemma GlueOne(w: string, head: string, rest: seq<string>)
    ensures Glue([w], [head] + rest) == [w + head] + rest
  {}

  lemma DoneRangesOne(line: string)
    ensures DoneRanges([line]) == DoneOf(line) && DoneRanges([]) == []
  {
    hide DoneOf;
  }

  predicate EndsWord(s: string) { s != "" && !IsWhite(s[|s| - 1]) }

  /** Splitting a concatenation joins at most the last word of one side with the first of the other. */
  lemma {:induction false} FieldsConcat(p: string, q: string)
    requires q != "" && !IsWhite(q[0])
    ensures Fields(q) != []
    ensures !EndsWord(p) ==> Fields(p + q) == Fields(p) + Fields(q)
    ensures EndsWord(p) ==> Fields(p) != []
    ensures EndsWord(p) ==> Fields(p + q) == Glue(Fields(p), Fields(q))
    decreases |p|, 1
  {
    hide IsWhite, Glue;
    if p == "" {
      assert p + q == q;
      FieldsOfNothing();
      FieldsNonempty(q);
    } else if IsWhite(p[0]) {
      assert (p + q)[1..] == p[1..] + q;
      FieldsConcat(p[1..], q);
    } else {
      var n := WordLen(p);
      var w, rest := p[..n], p[n..];
      assert p == w + rest;
      if rest == "" {
        GlueWord(p, q);
      } else {
        ConcatAfterWord(w, rest, q);
      }
    }
  }

  lemma ConcatAfterWord(w: string, rest: string, q: string)
    requires IsWord(w) && rest != "" && IsWhite(rest[0]) && q != "" && !IsWhite(q[0])
    ensures Fields(q) != []
    ensures !EndsWord(w + rest) ==> Fields(w + rest + q) == Fields(w + rest) + Fields(q)
    ensures EndsWord(w + rest) ==> Fields(w + rest) != []
    ensures EndsWord(w + rest) ==> Fields(w + rest + q) == Glue(Fields(w + rest), Fields(q))
    decreases |w + rest|, 0
  {
    hide IsWhite, Fields, Glue, WordLen;
    assert w + rest + q == w + (rest + q);
    FieldsOfWord(w, rest + q);
    FieldsOfWord(w, rest);
    FieldsConcat(rest, q);
    if EndsWord(rest) { GlueCons(w, Fields(rest), Fields(q)); }
  }

  lemma FieldsNonempty(q: string)
    requires q != "" && !IsWhite(q[0])
    ensures Fields(q) != []
  {}

  lemma GlueWord(p: string, q: string)
    requires IsWord(p) && q != "" && !IsWhite(q[0])
    ensures Fields(q) != [] && Fields(p) == [p] && Fields(p + q) == Glue([p], Fields(q))
  {
    hide IsWhite, Fields, Glue, WordLen;
    var m := WordLen(q);
    var head, rest := q[..m], q[m..];
    assert q == head + rest && p + q == (p + head) + rest;
    FieldsOfWord(p + head, rest);
    FieldsOfWord(head, rest);
    FieldsOfNothing();
    FieldsOfWord(p, "");
    assert p + "" == p;
    GlueOne(p, head, Fields(rest));
  }

  lemma FieldsAfterSpace(s: string)
    ensures Fields(" " + s) == Fields(s)
  {
    assert (" " + s)[1..] == s;
  }

  lemma FieldsOfNothing()
    ensures Fields("") == []
  {}

  lemma DoneLineFields(r: ByteRange)
    ensures var q := "done " + Decimal(r.start) + " " + Decimal(r.end);
            Fields(q) == ["done", Decimal(r.start), Decimal(r.end)] && DoneLine(r) == q + "\n" && '\n' !in q
            && StripReturn(q) == q && q != "" && !IsWhite(q[0])
  {
    hide Fields, Decimal, IsKeyed, IsDecimal, Value;
    DecimalIsAscii(r.start);
    DecimalIsAscii(r.end);
    var a, b := Decimal(r.start), Decimal(r.end);
    var q := "done " + a + " " + b;
    assert q == "done" + (" " + (a + (" " + b)));
    FieldsOfWord("done", " " + (a + (" " + b)));
    FieldsOfWord(a, " " + b);
    assert b + "" == b;
    FieldsOfWord(b, "");
    FieldsAfterSpace(a + (" " + b));
    FieldsAfterSpace(b + "");
    FieldsOfNothing();
    assert q[|q| - 1] == b[|b| - 1];
    assert q[0] == 'd';
    assert forall i :: 0 <= i < |q| ==> q[i] == if i < 5 then "done "[i] else if i < 5 + |a| then a[i - 5]
      else if i == 5 + |a| then ' ' else b[i - 6 - |a|];
  }

  function RangeOf(f: seq<string>): seq<ByteRange>
  {
    if |f| >= 3 && f[0] == "done" && ParseU64(f[1]).Some? && ParseU64(f[2]).Some?
    then [ByteRange(ParseU64(f[1]).value, ParseU64(f[2]).value)] else []
  }

  lemma DoneOfFields(line: string)
    ensures DoneOf(line) == if IsKeyed(line) then [] else RangeOf(Fields(line))
  {
    hide Fields, ParseU64, IsKeyed;
  }

  lemma NoNumberInDone(w: string)
    ensures ParseU64(w + "done") == None
  {
    var s := w + "done";
    assert s[|s| - 1] == 'e';
    assert s[1..][|s| - 2] == 'e';
  }

  /** Words put after, or run into, a line's words record the appended range, the old one, or none. */
  lemma RangeOfAppended(f: seq<string>, a: string, b: string, r: ByteRange)
    requires forall i :: 0 <= i < |f| ==> f[i] != ""
    requires ParseU64(a) == Some(r.start) && ParseU64(b) == Some(r.end)
    ensures RangeOf(["done", a, b]) == [r]
    ensures RangeOf(f + ["done", a, b]) in {[], [r], RangeOf(f)}
    ensures f != [] ==> RangeOf(Glue(f, ["done", a, b])) in {[], RangeOf(f)}
  {
    hide ParseU64;
    NoNumberInDone("");
    assert "" + "done" == "done";
    if f != [] {
      var last := f[|f| - 1] + "done";
      NoNumberInDone(f[|f| - 1]);
      assert |last| > 4;
      assert Glue(f, ["done", a, b]) == f[..|f| - 1] + [last, a, b];
    }
  }

  /** Whatever unfinished line an append meets, it records its own range or loses it; it never makes up another. */
  lemma AppendAfterPartialLine(p: string, r: ByteRange)
    ensures var q := "done " + Decimal(r.start) + " " + Decimal(r.end);
            DoneOf(p + q) in {[], [r], DoneOf(p)}
    ensures p == "" ==> !IsKeyed("done " + Decimal(r.start) + " " + Decimal(r.end))
                        && DoneOf("done " + Decimal(r.start) + " " + Decimal(r.end)) == [r]
  {
    hide Fields, ParseU64, Decimal, DoneOf, RangeOf, Glue, IsWhite;
    var q := "done " + Decimal(r.start) + " " + Decimal(r.end);
    DoneLineFields(r);
    FieldsConcat(p, q);
    ParseDecimal(r.start);
    ParseDecimal(r.end);
    RangeOfAppended(Fields(p), Decimal(r.start), Decimal(r.end), r);
    DoneOfFields(p + q);
    DoneOfFields(p);
    DoneOfFields(q);
    assert q[0] == 'd';
  }

  /** Appending to any text at all adds at most the appended range. */
  lemma AppendAddsOnly(text: string, r: ByteRange, x: ByteRange)
    requires x in NotesIn(text + DoneLine(r)).done
    ensures x == r || x in NotesIn(text).done
  {
    hide DoneOf, IsKeyed, Decimal, Lines, Fields, DoneRanges, NoteAll, LastBreak, IsWhite, DoneLine;
    var i := LastBreak(text);
    var a, p := text[..i], text[i..];
    var q := "done " + Decimal(r.start) + " " + Decimal(r.end);
    DoneLineFields(r);
    assert text == a + p && text + DoneLine(r) == a + ((p + q) + "\n");
    LinesConcat(a, p);
    LinesConcat(a, (p + q) + "\n");
    LinesOfOne(p + q);
    LinesOfOne(p);
    assert (p + q)[|p + q| - 1] == q[|q| - 1];
    AppendAfterPartialLine(p, r);
    NotedRanges(NO_NOTES, Lines(text));
    NotedRanges(NO_NOTES, Lines(text + DoneLine(r)));
    DoneRangesConcat(Lines(a), Lines(p));
    DoneRangesConcat(Lines(a), [p + q]);
    DoneRangesOne(p + q);
    DoneRangesOne(p);
    assert StripReturn(p + q) == p + q;
    assert p == "" ==> p + q == q;
    assert x in DoneRanges(Lines(a)) || x in DoneRanges([p + q]);
  }

  /** After a text that ends its lines, an append adds exactly its range, and nothing else changes. */
  lemma AppendRecords(text: string, r: ByteRange)
    requires EndsLine(text)
    ensures NotesIn(text + DoneLine(r)) == NotesIn(text).(done := NotesIn(text).done + [r])
    ensures EndsLine(text + DoneLine(r))
  {
    hide DoneOf, Decimal, Lines, Fields, LastBreak, IsWhite, DoneLine, NoteAll;
    var q := "done " + Decimal(r.start) + " " + Decimal(r.end);
    DoneLineFields(r);
    AppendAfterPartialLine("", r);
    assert "" + q == q;
    LinesConcat(text, DoneLine(r));
    LinesOfOne(q);
    NoteAllConcat(NO_NOTES, Lines(text), [q]);
    NoteOne(NotesIn(text), q);
  }

  lemma NoteOne(n: Notes, line: string)
    ensures NoteAll(n, [line]) == Note(n, line)
  {
    hide Note;
  }

  lemma {:induction false} NoteAllConcat(n: Notes, a: seq<string>, b: seq<string>)
    ensures NoteAll(n, a + b) == NoteAll(NoteAll(n, a), b)
    decreases |a|
  {
    hide Note;
    if a == [] {
      assert a + b == b;
    } else {
      NoteAllConcat(Note(n, a[0]), a[1..], b);
      assert (a + b)[1..] == a[1..] + b && (a + b)[0] == a[0];
    }
  }

  // ----- round trip

  /** A value survives its line exactly when it has no line feed and does not end in a carriage return. */
  predicate LineSafe(value: Option<string>)
  {
    value.Some? ==> '\n' !in value.value && StripReturn(value.value) == value.value
  }

  function DoneText(done: seq<ByteRange>): string
  {
    if done == [] then "" else DoneText(done[..|done| - 1]) + DoneLine(done[|done| - 1])
  }

  lemma {:induction false} AppendsRecord(text: string, done: seq<ByteRange>)
    requires EndsLine(text)
    ensures EndsLine(text + DoneText(done))
    ensures NotesIn(text + DoneText(done)) == NotesIn(text).(done := NotesIn(text).done + done)
  {
    hide DoneLine, Lines, NoteAll;
    if done == [] {
      assert text + DoneText(done) == text;
    } else {
      var front, last := done[..|done| - 1], done[|done| - 1];
      AppendsRecord(text, front);
      assert text + DoneText(done) == (text + DoneText(front)) + DoneLine(last);
      AppendRecords(text + DoneText(front), last);
      assert front + [last] == done;
    }
  }

  predicate Unbroken(n: Notes)
  {
    (n.validator.Some? ==> '\n' !in n.validator.value) && (n.source.Some? ==> '\n' !in n.source.value)
  }

  lemma {:induction false} LinesUnbroken(s: string, i: nat)
    requires i < |Lines(s)|
    ensures '\n' !in Lines(s)[i]
    decreases |s|
  {
    var k := IndexOf(s, '\n');
    if k < |s| && i > 0 { LinesUnbroken(s[k + 1..], i - 1); }
  }

  lemma {:induction false} NotesUnbroken(n: Notes, lines: seq<string>)
    requires Unbroken(n) && forall i :: 0 <= i < |lines| ==> '\n' !in lines[i]
    ensures Unbroken(NoteAll(n, lines))
    decreases |lines|
  {
    if lines != [] {
      assert '\n' !in lines[0];
      assert forall i :: 0 <= i < |lines[1..]| ==> lines[1..][i] == lines[i + 1];
      NotesUnbroken(Note(n, lines[0]), lines[1..]);
    }
  }

  function Stripped(value: Option<string>): Option<string>
  {
    if value.Some? then Some(StripReturn(value.value)) else None
  }

  predicate IsKey(key: string) { key in {"url ", "tag ", "algo "} }

  lemma KeyedLine(key: string, value: Option<string>)
    requires IsKey(key) && (value.Some? ==> '\n' !in value.value)
    ensures EndsLine(KeyLine(key, value))
    ensures Lines(KeyLine(key, value)) == if value.Some? then [key + StripReturn(value.value)] else []
  {
    hide Lines;
    if value.Some? {
      LinesOfOne(key + value.value);
      StrippedEnd(key, value.value);
      assert KeyLine(key, value) == (key + value.value) + "\n";
    } else {
      LinesOfOne("");
    }
  }

  lemma StrippedEnd(key: string, value: string)
    requires IsKey(key)
    ensures StripReturn(key + value) == key + StripReturn(value)
  {}

  /** What a keyed line does to the notes. */
  function Keyed(n: Notes, key: string, value: Option<string>): Notes
  {
    if value == None then n
    else if key == "url " then n.(source := value)
    else if key == "tag " then n.(validator := value)
    else n.(checksum := ChecksumFrom(value.value))
  }

  lemma KeyNoted(n: Notes, key: string, value: Option<string>)
    requires IsKey(key) && (value.Some? ==> '\n' !in value.value)
    ensures NoteAll(n, Lines(KeyLine(key, value))) == Keyed(n, key, Stripped(value))
  {
    hide Lines, KeyLine, StripReturn, DoneOf;
    KeyedLine(key, value);
    if value.Some? {
      var v := StripReturn(value.value);
      NoteOne(n, key + v);
      assert (key + v)[|key|..] == v && (key + v)[0] == key[0];
    }
  }

  lemma HeaderNotes(source: Option<string>, validator: Option<string>, checksum: Checksum)
    requires source.Some? ==> '\n' !in source.value
    requires validator.Some? ==> '\n' !in validator.value
    ensures EndsLine(Header(source, validator, checksum))
    ensures NotesIn(Header(source, validator, checksum))
     == Notes(Stripped(validator), Stripped(source), Some(checksum), [])
  {
    hide NoteAll, Lines, KeyLine, EndsLine, ChecksumFrom, StripReturn;
    var url, tag, algo := KeyLine("url ", source), KeyLine("tag ", validator), KeyLine("algo ", Some(checksum.Name()));
    NameIsPlain(checksum);
    KeyNoted(NO_NOTES, "url ", source);
    KeyNoted(NoteAll(NO_NOTES, Lines(url)), "tag ", validator);
    KeyNoted(NoteAll(NoteAll(NO_NOTES, Lines(url)), Lines(tag)), "algo ", Some(checksum.Name()));
    KeyedLine("url ", source);
    KeyedLine("tag ", validator);
    KeyedLine("algo ", Some(checksum.Name()));
    LinesOfThree(url, tag, algo);
    NoteAllConcat(NO_NOTES, Lines(url) + Lines(tag), Lines(algo));
    NoteAllConcat(NO_NOTES, Lines(url), Lines(tag));
  }

  lemma LinesOfThree(a: string, b: string, c: string)
    requires EndsLine(a) && EndsLine(b) && EndsLine(c)
    ensures Lines(a + b + c) == Lines(a) + Lines(b) + Lines(c) && EndsLine(a + b + c)
  {
    hide Lines;
    LinesConcat(a, b);
    LinesConcat(a + b, c);
  }

  lemma NameIsPlain(c: Checksum)
    ensures '\n' !in c.Name() && StripReturn(c.Name()) == c.Name() && ChecksumFrom(c.Name()) == Some(c)
  {
    ChecksumNamed(c);
  }

  /** A header and the lines of any ranges are read back as what they say, exactly when the source and the validator
      are safe on a line. */
  lemma RecordsAreReadBack(file: seq<byte>, total: nat, validator: Option<string>, source: Option<string>,
                           checksum: Checksum, done: seq<ByteRange>)
    requires Stable(file, total, Header(source, validator, checksum) + DoneText(done))
    ensures ReadOf(file) == Some(Control(total, Notes(validator, source, Some(checksum), done)))
       <==> LineSafe(validator) && LineSafe(source)
  {
    hide DoneText, Lines, NoteAll, Header, ReadOf, Encode;
    var header := Header(source, validator, checksum);
    var text := header + DoneText(done);
    StableReads(file, total, text);
    if (source.Some? ==> '\n' !in source.value) && (validator.Some? ==> '\n' !in validator.value) {
      HeaderNotes(source, validator, checksum);
      AppendsRecord(header, done);
      assert [] + done == done;
    } else {
      forall i | 0 <= i < |Lines(text)|
        ensures '\n' !in Lines(text)[i]
      {
        LinesUnbroken(text, i);
      }
      NotesUnbroken(NO_NOTES, Lines(text));
    }
  }

  /** What a control goes through: a range is recorded, the file is opened again, some of the data is written. */
  datatype Event = Noted(range: ByteRange) | Reopened | Filled(at: nat, piece: seq<byte>)

  function RangesOf(events: seq<Event>): seq<ByteRange>
  {
    if events == [] then []
    else
      var last := events[|events| - 1];
      RangesOf(events[..|events| - 1]) + if last.Noted? then [last.range] else []
  }

  function Written(header: string, events: seq<Event>): string { header + DoneText(RangesOf(events)) }

  /** Whatever a control has gone through since it was created, it is read back as created with the ranges recorded
      since, exactly when the source and the validator are safe on a line. Only a file too large stops it. */
  method CreateAndRecord(disk: Disk, total: u64, validator: Option<string>, source: Option<string>, checksum: Checksum,
                         events: seq<Event>) returns (ok: bool, read: Option<Control>)
    requires forall e :: e in events && e.Filled? ==> e.at + |e.piece| <= total
    modifies disk
    ensures ok <==> total + |Encode(Written(Header(source, validator, checksum), events))| + FOOTER <= MAX_FILE
    ensures ok ==> (read == Some(Control(total, Notes(validator, source, Some(checksum), RangesOf(events))))
                    <==> LineSafe(validator) && LineSafe(source))
  {
    hide Encode, Header, DoneText, RangesOf, LineSafe, NotesIn, Stamped, Overlay, ReadOf, AtRest, DoneLine;
    ghost var header := Header(source, validator, checksum);
    var created := Writer.Create(disk, total, validator, source, checksum, MAX_FILE);
    NothingWritten(header);
    if created.None? {
      WrittenGrows(header, events, 0);
      return false, None;
    }
    var writer := created.value;
    AtRestSize(disk.bytes, total, Encode(header));
    for i := 0 to |events|
      invariant writer.disk == disk && writer.total == total && fresh(writer)
      invariant writer.Holds(Encode(Written(header, events[..i]))) && |disk.bytes| <= MAX_FILE
    {
      ghost var text := Encode(Written(header, events[..i]));
      AtRestSize(disk.bytes, total, text);
      WrittenMore(header, events, i);
      match events[i] {
        case Noted(range) =>
          var appended := writer.Append(range, Smooth, text);
          StampedLength(total, |text|, Encode(DoneLine(range)));
          if !appended {
            WrittenGrows(header, events, i + 1);
            return false, None;
          }
        case Reopened =>
          var reopened := Writer.Open(disk, total);
          writer := reopened.value;
        case Filled(at, piece) =>
          ghost var before := disk.bytes;
          var _ := disk.WriteAll(at, piece, |piece|);
          FillKeepsRest(before, total, text, at, piece);
      }
      AtRestSize(disk.bytes, total, Encode(Written(header, events[..i + 1])));
    }
    assert events[..|events|] == events;
    AtRestSize(disk.bytes, total, Encode(Written(header, events)));
    read := Read(disk.bytes);
    RecordsAreReadBack(disk.bytes, total, validator, source, checksum, RangesOf(events));
    ok := true;
  }

  lemma AtRestSize(file: seq<byte>, total: nat, text: seq<byte>)
    requires AtRest(file, total, text)
    ensures |file| == total + |text| + FOOTER
  {}

  lemma NothingWritten(header: string)
    ensures Written(header, []) == header
  {
    assert header + "" == header;
  }

  /** One more event adds its line, if it records a range. */
  lemma WrittenMore(header: string, events: seq<Event>, i: nat)
    requires i < |events|
    ensures var before, after := Encode(Written(header, events[..i])), Encode(Written(header, events[..i + 1]));
            after == if events[i].Noted? then before + Encode(DoneLine(events[i].range)) else before
  {
    hide Encode, DoneLine;
    var front, done := events[..i], RangesOf(events[..i]);
    assert events[..i + 1][..i] == front;
    if events[i].Noted? {
      var r := events[i].range;
      assert (done + [r])[..|done|] == done;
      assert header + (DoneText(done) + DoneLine(r)) == Written(header, front) + DoneLine(r);
      EncodeConcat(Written(header, front), DoneLine(r));
    } else {
      assert done + [] == done;
    }
  }

  lemma {:induction false} WrittenGrows(header: string, events: seq<Event>, i: nat)
    requires i <= |events|
    ensures |Encode(Written(header, events[..i]))| <= |Encode(Written(header, events))|
    decreases |events| - i
  {
    hide Encode, Written;
    if i == |events| {
      assert events[..i] == events;
    } else {
      WrittenMore(header, events, i);
      WrittenGrows(header, events, i + 1);
    }
  }

  lemma FillKeepsRest(file: seq<byte>, total: nat, text: seq<byte>, at: nat, piece: seq<byte>)
    requires AtRest(file, total, text) && at + |piece| <= total
    ensures AtRest(Overlay(file, at, piece), total, text)
  {
    hide Overlay, IsFooter;
    var after := Overlay(file, at, piece);
    OverlayAt(file, at, piece);
    assert after[total..total + |text|] == file[total..total + |text|];
    assert after[total + |text|..] == file[total + |text|..];
  }

  // ----- other files a run can leave

  /** No line begins in a way that could record a range. */
  predicate Quiet(s: string)
  {
    forall i :: 0 <= i < |s| ==> QuietAt(s, i)
  }

  predicate QuietAt(s: string, i: nat)
    requires i < |s|
  {
    i == 0 || s[i - 1] == '\n' ==> s[i] in {'u', 't', 'a'}
  }

  lemma {:induction false} QuietRecordsNothing(s: string)
    requires Quiet(s)
    ensures DoneRanges(Lines(s)) == []
    decreases |s|
  {
    if s != "" {
      var i := IndexOf(s, '\n');
      assert QuietAt(s, 0);
      if i < |s| {
        QuietSuffix(s, i);
        QuietRecordsNothing(s[i + 1..]);
        QuietLine(StripReturn(s[..i]));
      } else {
        QuietLine(s);
      }
    }
  }

  lemma QuietSuffix(s: string, i: nat)
    requires Quiet(s) && i < |s| && s[i] == '\n'
    ensures Quiet(s[i + 1..])
  {
    var t := s[i + 1..];
    forall j | 0 <= j < |t|
      ensures QuietAt(t, j)
    {
      assert QuietAt(s, i + 1 + j);
    }
  }

  lemma QuietLine(line: string)
    requires line != "" && line[0] in {'u', 't', 'a'}
    ensures DoneOf(line) == []
  {
    var n := WordLen(line);
    assert line == line[..n] + line[n..];
    FieldsOfWord(line[..n], line[n..]);
    assert line[..n][0] == line[0];
  }

  lemma HeaderIsQuiet(source: Option<string>, validator: Option<string>, checksum: Checksum)
    requires source.Some? ==> '\n' !in source.value
    requires validator.Some? ==> '\n' !in validator.value
    ensures Quiet(Header(source, validator, checksum))
  {
    hide Quiet, KeyLine, EndsLine;
    var url, tag, algo := KeyLine("url ", source), KeyLine("tag ", validator), KeyLine("algo ", Some(checksum.Name()));
    NameIsPlain(checksum);
    QuietKeyed("url ", source);
    QuietKeyed("tag ", validator);
    QuietKeyed("algo ", Some(checksum.Name()));
    KeyedLine("url ", source);
    KeyedLine("tag ", validator);
    QuietConcat(url, tag);
    EndsBoth(url, tag);
    QuietConcat(url + tag, algo);
  }

  lemma EndsBoth(a: string, b: string)
    requires EndsLine(a) && EndsLine(b)
    ensures EndsLine(a + b)
  {}

  lemma QuietKeyed(key: string, value: Option<string>)
    requires IsKey(key) && (value.Some? ==> '\n' !in value.value)
    ensures Quiet(KeyLine(key, value))
  {
    if value.Some? {
      var s, v := key + value.value + "\n", value.value;
      assert forall i :: 0 <= i < |s| - 1 ==> s[i] == if i < |key| then key[i] else v[i - |key|];
      assert key != "" && key[0] in {'u', 't', 'a'} && '\n' !in key;
    }
  }

  lemma QuietConcat(a: string, b: string)
    requires Quiet(a) && Quiet(b) && EndsLine(a)
    ensures Quiet(a + b)
  {
    var s := a + b;
    forall i | 0 <= i < |s|
      ensures QuietAt(s, i)
    {
      if i < |a| { assert QuietAt(a, i); } else { assert QuietAt(b, i - |a|); }
    }
  }

  lemma QuietPrefix(p: string, s: string)
    requires Quiet(s) && p <= s
    ensures Quiet(p)
  {
    forall i | 0 <= i < |p|
      ensures QuietAt(p, i)
    {
      assert QuietAt(s, i);
    }
  }

  lemma StampedStartsWith(total: nat, trailer: nat, line: seq<byte>, n: nat)
    requires n <= |line|
    ensures Stamped(total, trailer, line)[..n] == line[..n]
  {}

  /** A creation cut short leaves no recorded range, even when what is there happens to read as a control. */
  lemma TornCreateRecordsNothing(file: seq<byte>, total: nat, source: Option<string>, validator: Option<string>,
                                 checksum: Checksum)
    requires source.Some? ==> '\n' !in source.value
    requires validator.Some? ==> '\n' !in validator.value
    requires TornWrite(Zeros(total), total, Stamped(total, 0, Encode(Header(source, validator, checksum))), file)
    requires ReadOf(file).Some? && ReadOf(file).value.total == total
    ensures ReadOf(file).value.notes.done == []
  {
    hide Header, Encode, Decode, Lines, NoteAll, Stamped, ReadOf, DoneRanges;
    var header := Header(source, validator, checksum);
    var seed := Encode(header);
    var buffer := Stamped(total, 0, seed);
    var k: nat :| k <= |buffer| && file == Overlay(Zeros(total), total, buffer[..k]);
    var text := ReadableIsStable(file);
    OverlayTail(Zeros(total), total, buffer[..k]);
    assert file == Zeros(total) + buffer[..k];
    assert |Encode(text)| == k - FOOTER <= |seed|;
    StampedStartsWith(total, 0, seed, |Encode(text)|);
    assert file[total..total + |Encode(text)|] == buffer[..k][..|Encode(text)|] == buffer[..|Encode(text)|];
    EncodedPrefix(text, header);
    HeaderIsQuiet(source, validator, checksum);
    QuietPrefix(text, header);
    QuietRecordsNothing(text);
    NotedRanges(NO_NOTES, Lines(text));
  }

  /** A finished image has no trailer; if its content happens to read as a control, that control is for a
      shorter resource, so a resume for the same length never trusts it. */
  lemma FinishedImageIsNotResumed(image: seq<byte>, total: nat)
    requires |image| == total && ReadOf(image).Some?
    ensures ReadOf(image).value.total < total
  {}
}
