/** Sidecars as checksum tools write them, and what is read from them. */
module SidecarLaws {
  import opened Common
  import opened Text
  import opened PayloadChecks
  import opened Proposals

  // ----- digests in hexadecimal

  /** One hexadecimal digit, in either case. */
  function HexChar(n: nat, upper: bool): char
    requires n < 16
  {
    if n < 10 then ("0123456789")[n] else if upper then ("ABCDEF")[n - 10] else ("abcdef")[n - 10]
  }

  /** Bytes in hexadecimal, each digit in the case `upper` says. */
  function HexText(b: seq<byte>, upper: seq<bool>): (s: string)
    requires |upper| == 2 * |b|
    ensures |s| == 2 * |b|
  {
    if b == [] then ""
    else [HexChar(b[0] / 16, upper[0]), HexChar(b[0] % 16, upper[1])] + HexText(b[1..], upper[2..])
  }

  lemma HexCharIsRead(n: nat, upper: bool)
    requires n < 16
    ensures HexDigit(HexChar(n, upper)) == Some(n)
    ensures HexChar(n, upper) !in {' ', ':', '\n', '\r'} && HexChar(n, upper) < 128 as char
  {}

  lemma {:induction false} HexIsRead(b: seq<byte>, upper: seq<bool>)
    requires |upper| == 2 * |b|
    ensures var s := HexText(b, upper);
            && IsHex(s) && HexBytes(s) == b && IsAscii(s)
            && forall i :: 0 <= i < |s| ==> s[i] !in {' ', ':', '\n', '\r'}
  {
    hide HexChar;
    if b != [] {
      HexIsRead(b[1..], upper[2..]);
      HexCharIsRead(b[0] / 16, upper[0]);
      HexCharIsRead(b[0] % 16, upper[1]);
      var s := HexText(b, upper);
      assert s[2..] == HexText(b[1..], upper[2..]);
      assert forall i :: 2 <= i < |s| ==> s[i] == s[2..][i - 2];
    }
  }

  lemma HexDigitIs(c: char)
    ensures HexDigit(c).Some? ==> HexDigit(c).value < 16 && c == HexChar(HexDigit(c).value, 'A' <= c <= 'F')
  {}

  lemma {:induction false} HexIsWritten(s: string) returns (upper: seq<bool>)
    requires IsHex(s) && |s| % 2 == 0
    ensures |upper| == |s| && HexText(HexBytes(s), upper) == s && IsAscii(s)
  {
    hide HexChar;
    if s == "" {
      upper := [];
    } else {
      var rest := HexIsWritten(s[2..]);
      HexDigitIs(s[0]);
      HexDigitIs(s[1]);
      upper := ['A' <= s[0] <= 'F', 'A' <= s[1] <= 'F'] + rest;
      assert upper[2..] == rest && HexBytes(s)[1..] == HexBytes(s[2..]);
      assert s == [s[0], s[1]] + s[2..];
      assert forall i :: 2 <= i < |s| ==> s[i] == s[2..][i - 2];
    }
  }

  /** The name a checksum is labelled with. */
  function NameOf(a: Algorithm): string
  {
    match a
    case Md5 => "md5"
    case Sha1 => "sha1"
    case Sha256 => "sha256"
    case Sha512 => "sha512"
    case Blake3 => "blake3"
  }

  predicate IsWhole(d: Digest) { |d.bytes| == d.algorithm.ByteLen() }

  // ----- lines

  /** How a tool writes a record: the case of its digits, whether the digest is labelled with its algorithm, and which
      of the two layouts the path has. */
  datatype Style = Style(upper: seq<bool>, labelled: bool, star: bool)

  function TokenText(d: Digest, style: Style): string
    requires |style.upper| == 2 * |d.bytes|
  {
    (if style.labelled then NameOf(d.algorithm) + ":" else "") + HexText(d.bytes, style.upper)
  }

  /** There is a case for every digit. */
  predicate Fits(r: Record, style: Style) { |style.upper| == 2 * |r.digest.bytes| }

  function LineText(r: Record, style: Style): string
    requires Fits(r, style)
  {
    TokenText(r.digest, style) + if r.path.Some? then (if style.star then " *" else "  ") + r.path.value else ""
  }

  lemma NamesAreRead(a: Algorithm)
    ensures ParseAlgorithm(NameOf(a)) == Some(a) && IsAscii(NameOf(a)) && NameOf(a) != ""
    ensures forall i :: 0 <= i < |NameOf(a)| ==> NameOf(a)[i] !in {' ', ':', '\n', '\r'}
  {}

  lemma BareIsRead(d: Digest, upper: seq<bool>)
    requires IsWhole(d) && |upper| == 2 * |d.bytes|
    ensures ParseDigest(d.algorithm, HexText(d.bytes, upper)) == Some(d)
  {
    hide HexText, Encode;
    HexIsRead(d.bytes, upper);
    EncodeAscii(HexText(d.bytes, upper));
  }

  lemma LabelIsRead(name: string, hex: string, a: Algorithm)
    requires ParseAlgorithm(name) == Some(a) && ':' !in name
    ensures ParseNamedDigest(name + ":" + hex) == ParseDigest(a, hex)
  {
    hide ParseDigest, ParseAlgorithm, IndexOf;
    var t := name + ":" + hex;
    assert t[|name|] == ':';
    IndexOfAt(t, ':', |name|);
    assert t[..|name|] == name && t[|name| + 1..] == hex;
  }

  predicate IsClean(s: string) { forall i :: 0 <= i < |s| ==> s[i] !in {' ', '\n', '\r'} }

  lemma TokenIsRead(d: Digest, style: Style, algorithm: Algorithm)
    requires IsWhole(d) && |style.upper| == 2 * |d.bytes| && (style.labelled || d.algorithm == algorithm)
    ensures var t := TokenText(d, style); ParseToken(t, algorithm) == Some(d) && t != "" && IsClean(t)
  {
    hide HexText, ParseDigest, ParseAlgorithm, NameOf, ParseNamedDigest;
    var hex, name := HexText(d.bytes, style.upper), NameOf(d.algorithm);
    HexIsRead(d.bytes, style.upper);
    BareIsRead(d, style.upper);
    NamesAreRead(d.algorithm);
    if style.labelled {
      LabelIsRead(name, hex, d.algorithm);
      assert (name + ":" + hex)[|name|] == ':';
    } else {
      assert "" + hex == hex;
    }
  }

  predicate IsWritten(r: Record, style: Style, algorithm: Algorithm)
  {
    && IsWhole(r.digest) && Fits(r, style)
    && (style.labelled || r.digest.algorithm == algorithm)
    && (r.path.Some? ==> IsPath(r.path.value))
  }

  /** A record written in any style is read back; an unlabelled digest is one of the algorithm asked for. */
  lemma LineIsRead(r: Record, style: Style, algorithm: Algorithm)
    requires IsWritten(r, style, algorithm)
    ensures var line := LineText(r, style);
            ParseLine(line, algorithm) == Some(r) && line != "" && '\n' !in line && StripReturn(line) == line
  {
    hide TokenText, ParseToken, Encode, ParseLine, IsPath;
    var t, line := TokenText(r.digest, style), LineText(r, style);
    TokenIsRead(r.digest, style, algorithm);
    if r.path.Some? {
      var gap := if style.star then " *" else "  ";
      PathIsRead(t, r.digest, gap, r.path.value, algorithm);
      assert line == t + gap + r.path.value;
    } else {
      assert t + "" == t;
      LoneIsRead(t, r.digest, algorithm);
    }
  }

  lemma LoneIsRead(t: string, d: Digest, algorithm: Algorithm)
    requires ParseToken(t, algorithm) == Some(d) && t != "" && IsClean(t)
    ensures ParseLine(t, algorithm) == Some(Record(d, None)) && StripReturn(t) == t
  {
    hide ParseToken, IndexOf;
    IndexOfAt(t, ' ', |t|);
  }

  lemma PathIsRead(t: string, d: Digest, gap: string, path: string, algorithm: Algorithm)
    requires ParseToken(t, algorithm) == Some(d) && IsClean(t) && IsPath(path) && gap in {"  ", " *"}
    ensures var line := t + gap + path;
            && ParseLine(line, algorithm) == Some(Record(d, Some(path)))
            && '\n' !in line && StripReturn(line) == line
  {
    hide ParseToken, IndexOf, Encode;
    var line, rest := t + gap + path, gap + path;
    assert line == t + rest && rest[..2] == gap && rest[2..] == path && gap[0] == ' ';
    IndexOfAt(line, ' ', |t|);
    assert line[..|t|] == t && line[|t|..] == rest;
    assert gap <= rest;
    EndsCleanly(t, gap, path);
  }

  lemma EndsCleanly(t: string, gap: string, path: string)
    requires IsClean(t) && path != "" && gap in {"  ", " *"} && forall i :: 0 <= i < |path| ==> !IsControl(path[i])
    ensures var line := t + gap + path; '\n' !in line && StripReturn(line) == line
  {
    var line := t + gap + path;
    assert line[|line| - 1] == path[|path| - 1];
    ControlsAre('\n');
    ControlsAre('\r');
    assert '\n' !in path;
  }

  lemma ControlsAre(c: char)
    ensures c in {'\n', '\r'} ==> IsControl(c)
  {}

  lemma BareIsWritten(a: Algorithm, value: string, d: Digest) returns (upper: seq<bool>)
    requires ParseDigest(a, value) == Some(d)
    ensures d.algorithm == a && IsWhole(d) && |upper| == 2 * |d.bytes| && value == HexText(d.bytes, upper)
  {
    hide HexText, Encode, HexBytes;
    upper := HexIsWritten(value);
    EncodeAscii(value);
  }

  lemma NamesAreWritten(name: string, a: Algorithm)
    requires ParseAlgorithm(name) == Some(a)
    ensures name == NameOf(a)
  {}

  lemma TokenIsWritten(t: string, algorithm: Algorithm, d: Digest) returns (upper: seq<bool>)
    requires ParseToken(t, algorithm) == Some(d)
    ensures IsWhole(d) && |upper| == 2 * |d.bytes| && t == TokenText(d, Style(upper, ':' in t, false))
    ensures ':' in t || d.algorithm == algorithm
  {
    hide HexText, ParseDigest, ParseAlgorithm, NameOf;
    if ':' in t {
      var i := IndexOf(t, ':');
      var a := ParseAlgorithm(t[..i]).value;
      NamesAreWritten(t[..i], a);
      upper := BareIsWritten(a, t[i + 1..], d);
      assert t == t[..i] + ":" + t[i + 1..];
    } else {
      upper := BareIsWritten(algorithm, t, d);
      assert "" + t == t;
    }
  }

  /** ... and a line that is read as a record is that record, written in some style. */
  lemma LineIsWritten(line: string, algorithm: Algorithm, r: Record) returns (style: Style)
    requires ParseLine(line, algorithm) == Some(r)
    ensures IsWritten(r, style, algorithm) && line == LineText(r, style)
  {
    hide ParseToken, TokenText, Encode, IsPath;
    var i := IndexOf(line, ' ');
    if i == |line| { assert line[..i] == line; }
    var upper := TokenIsWritten(line[..i], algorithm, r.digest);
    if i == |line| {
      style := Style(upper, ':' in line[..i], false);
      assert line[..i] == line && line + "" == line;
      SameToken(r.digest, style, false);
    } else {
      var rest := line[i..];
      style := Style(upper, ':' in line[..i], " *" <= rest);
      SameToken(r.digest, style, false);
      assert rest == rest[..2] + rest[2..] && line == line[..i] + rest;
      assert line == line[..i] + ((if style.star then " *" else "  ") + rest[2..]);
    }
  }

  lemma SameToken(d: Digest, style: Style, star: bool)
    requires |style.upper| == 2 * |d.bytes|
    ensures TokenText(d, style) == TokenText(d, style.(star := star))
  {}

  // ----- whole sidecars

  function SidecarText(records: seq<Record>, styles: seq<Style>): string
    requires |records| == |styles|
    requires forall i :: 0 <= i < |records| ==> Fits(records[i], styles[i])
  {
    if records == [] then "" else LineText(records[0], styles[0]) + "\n" + SidecarText(records[1..], styles[1..])
  }

  lemma {:induction false} SidecarLines(records: seq<Record>, styles: seq<Style>, algorithm: Algorithm)
    requires |records| == |styles|
    requires forall i :: 0 <= i < |records| ==>
               Fits(records[i], styles[i]) && IsWritten(records[i], styles[i], algorithm)
    ensures var lines := Nonempty(Lines(SidecarText(records, styles)));
            && |lines| == |records|
            && forall i :: 0 <= i < |records| ==> ParseLine(lines[i], algorithm) == Some(records[i])
  {
    hide LineText, ParseLine, Lines, IsWritten, Fits;
    if records == [] {
      NoLines();
    } else {
      var line, rest := LineText(records[0], styles[0]), SidecarText(records[1..], styles[1..]);
      assert IsWritten(records[0], styles[0], algorithm);
      LineIsRead(records[0], styles[0], algorithm);
      forall i | 0 <= i < |records| - 1
        ensures Fits(records[1..][i], styles[1..][i]) && IsWritten(records[1..][i], styles[1..][i], algorithm)
      {
        assert IsWritten(records[i + 1], styles[i + 1], algorithm);
      }
      SidecarLines(records[1..], styles[1..], algorithm);
      LinesConcat(line + "\n", rest);
      LinesOfOne(line);
      assert Lines(line + "\n" + rest)[1..] == Lines(rest);
      var lines := Nonempty(Lines(SidecarText(records, styles)));
      assert lines == [line] + Nonempty(Lines(rest));
      assert forall i :: 0 < i < |records| ==> lines[i] == lines[1..][i - 1] && records[i] == records[1..][i - 1];
    }
  }

  lemma NoLines()
    ensures Nonempty(Lines("")) == []
  {}

  /** A sidecar of up to 256 records and 65536 bytes, each in any style, is read back as those records, when no two give
      one path two digests of an algorithm and a record without a path stands alone. */
  lemma SidecarsAreRead(records: seq<Record>, styles: seq<Style>, algorithm: Algorithm)
    requires |records| == |styles|
    requires forall i :: 0 <= i < |records| ==>
               Fits(records[i], styles[i]) && IsWritten(records[i], styles[i], algorithm)
    requires 0 < |records| <= 256 && |Encode(SidecarText(records, styles))| <= 65536
    requires forall i, j :: 0 <= i < j < |records| && records[i].path == records[j].path ==>
               records[i].digest.algorithm != records[j].digest.algorithm
    requires |records| > 1 ==> forall r :: r in records ==> r.path.Some?
    ensures IsSidecar(SidecarText(records, styles), algorithm, records)
  {
    hide SidecarText, Lines, ParseLine, Nonempty, Encode, IsWritten, Fits;
    SidecarLines(records, styles, algorithm);
    assert forall i :: 0 <= i < |records| ==> records[i] in records;
  }

  /** What a path is bound to: the digests of its own records, and of those without a path. */
  lemma {:induction false} BoundToPath(records: seq<Record>, path: string)
    ensures forall d :: d in Bound(records, path) <==>
              exists r :: r in records && r.digest == d && (r.path.Some? ==> r.path.value == path)
  {
    if records != [] {
      var front, last := records[..|records| - 1], records[|records| - 1];
      BoundToPath(front, path);
      forall d
        ensures d in Bound(records, path) <==>
                exists r :: r in records && r.digest == d && (r.path.Some? ==> r.path.value == path)
      {
        if r :| r in records && r.digest == d && (r.path.Some? ==> r.path.value == path) {
          assert r in front || r == last;
        }
      }
    }
  }

  /** A lone digest without a path is bound to every path, and a sidecar of one labelled record to its own only. */
  lemma LoneDigestBinds(d: Digest, path: string, other: string)
    ensures Bound([Record(d, None)], path) == [d]
    ensures Bound([Record(d, Some(other))], path) == if other == path then [d] else []
  {
    assert [Record(d, None)][..0] == [] && [Record(d, Some(other))][..0] == [];
  }
}
