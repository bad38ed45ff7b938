/** The parts of Rust's `str` the repository relies on: UTF-8, `lines`, `split_whitespace`,
    decimal formatting and `u64` parsing. A Dafny `char` is a Unicode scalar value, so a Dafny
    `string` is exactly a Rust `String`. */
module Text {
  import opened Common

  // ----- UTF-8 (RFC 3629, section 3)

  function EncodeChar(c: char): (b: seq<byte>)
    ensures 1 <= |b| <= 4
  {
    var v := c as int;
    if v < 0x80 then [v]
    else if v < 0x800 then [0xC0 + v / 64, 0x80 + v % 64]
    else if v < 0x1_0000 then [0xE0 + v / 4096, 0x80 + v / 64 % 64, 0x80 + v % 64]
    else [0xF0 + v / 262144, 0x80 + v / 4096 % 64, 0x80 + v / 64 % 64, 0x80 + v % 64]
  }

  function Encode(s: string): (b: seq<byte>)
    ensures |b| >= |s|
  {
    if s == "" then [] else EncodeChar(s[0]) + Encode(s[1..])
  }

  predicate IsContinuation(b: byte) { 0x80 <= b < 0xC0 }

  /** The first scalar of `b` and its width; none when `b` does not start with shortest-form UTF-8. */
  function DecodeChar(b: seq<byte>): (r: Option<(char, nat)>)
    requires |b| > 0
    ensures r.Some? ==> 1 <= r.value.1 <= |b|
  {
    if b[0] < 0x80 then Some((b[0] as char, 1))
    else if 0xC2 <= b[0] < 0xE0 && |b| >= 2 && IsContinuation(b[1]) then
      Some((((b[0] as int - 0xC0) * 64 + (b[1] as int - 0x80)) as char, 2))
    else if 0xE0 <= b[0] < 0xF0 && |b| >= 3 && IsContinuation(b[1]) && IsContinuation(b[2]) then
      var v := (b[0] as int - 0xE0) * 4096 + (b[1] as int - 0x80) * 64 + (b[2] as int - 0x80);
      if 0x800 <= v && !(0xD800 <= v < 0xE000) then Some((v as char, 3)) else None
    else if 0xF0 <= b[0] < 0xF5 && |b| >= 4 && IsContinuation(b[1]) && IsContinuation(b[2]) && IsContinuation(b[3]) then
      var v := (b[0] as int - 0xF0) * 262144 + (b[1] as int - 0x80) * 4096
               + (b[2] as int - 0x80) * 64 + (b[3] as int - 0x80);
      if 0x1_0000 <= v < 0x11_0000 then Some((v as char, 4)) else None
    else None
  }

  /** `String::from_utf8`. */
  function Decode(b: seq<byte>): Option<string>
  {
    if b == [] then Some("")
    else
      match DecodeChar(b)
      case None => None
      case Some((c, width)) =>
        match Decode(b[width..])
        case None => None
        case Some(rest) => Some([c] + rest)
  }

  lemma SixBits(high: nat, low: nat)
    requires low < 64
    ensures (high * 64 + low) / 64 == high && (high * 64 + low) % 64 == low
  {}

  lemma DecodedCharEncodes(b: seq<byte>)
    requires |b| > 0 && DecodeChar(b).Some?
    ensures EncodeChar(DecodeChar(b).value.0) == b[..DecodeChar(b).value.1]
  {
    var (c, width) := DecodeChar(b).value;
    if width == 2 {
      SixBits(b[0] - 0xC0, b[1] - 0x80);
    } else if width == 3 {
      ThreeParts(b[0] - 0xE0, b[1] - 0x80, b[2] - 0x80);
    } else if width == 4 {
      FourParts(b[0] - 0xF0, b[1] - 0x80, b[2] - 0x80, b[3] - 0x80);
    }
  }

  lemma ThreeParts(x: nat, y: nat, z: nat)
    requires y < 64 && z < 64
    ensures var v := x * 4096 + y * 64 + z; v / 4096 == x && v / 64 % 64 == y && v % 64 == z
  {
    SixBits(x * 64 + y, z);
    SixBits(x, y);
  }

  lemma FourParts(x: nat, y: nat, z: nat, w: nat)
    requires y < 64 && z < 64 && w < 64
    ensures var v := x * 262144 + y * 4096 + z * 64 + w;
            v / 262144 == x && v / 4096 % 64 == y && v / 64 % 64 == z && v % 64 == w
  {
    SixBits((x * 64 + y) * 64 + z, w);
    ThreeParts(x, y, z);
  }

  lemma DecodeCharOfEncoded(c: char, rest: seq<byte>)
    ensures DecodeChar(EncodeChar(c) + rest) == Some((c, |EncodeChar(c)|))
  {
    var v := c as int;
    assert v == v / 64 * 64 + v % 64;
    assert v / 64 == v / 4096 * 64 + v / 64 % 64;
    assert v / 4096 == v / 262144 * 64 + v / 4096 % 64;
  }

  /** Every string survives encoding and decoding. */
  lemma {:induction false} DecodeEncode(s: string)
    ensures Decode(Encode(s)) == Some(s)
  {
    if s != "" {
      DecodeCharOfEncoded(s[0], Encode(s[1..]));
      DecodeEncode(s[1..]);
      var b := Encode(s);
      assert b[|EncodeChar(s[0])|..] == Encode(s[1..]);
      assert [s[0]] + s[1..] == s;
    }
  }

  /** Only the encoding of a string decodes to it. */
  lemma {:induction false} EncodeDecode(b: seq<byte>, s: string)
    requires Decode(b) == Some(s)
    ensures Encode(s) == b
  {
    hide EncodeChar, DecodeChar;
    if b != [] {
      var (c, width) := DecodeChar(b).value;
      DecodedCharEncodes(b);
      EncodeDecode(b[width..], s[1..]);
      assert b == b[..width] + b[width..];
    }
  }

  lemma EncodeUnfolds(s: string)
    ensures Encode(s) == if s == "" then [] else EncodeChar(s[0]) + Encode(s[1..])
  {
    hide EncodeChar;
  }

  lemma Regrouped(a: seq<byte>, b: seq<byte>, c: seq<byte>)
    ensures a + (b + c) == (a + b) + c
  {}

  lemma {:induction false} EncodeConcat(s: string, t: string)
    ensures Encode(s + t) == Encode(s) + Encode(t)
  {
    hide Encode;
    EncodeUnfolds(s);
    if s == "" {
      assert s + t == t;
      assert Encode(s) + Encode(t) == Encode(t);
    } else {
      EncodeConcat(s[1..], t);
      EncodeUnfolds(s + t);
      assert (s + t)[1..] == s[1..] + t && (s + t)[0] == s[0];
      Regrouped(EncodeChar(s[0]), Encode(s[1..]), Encode(t));
    }
  }

  lemma TailPrefix(a: seq<byte>, b: seq<byte>, w: nat)
    requires a <= b && w <= |a|
    ensures a[w..] <= b[w..]
  {}

  /** UTF-8 is a prefix code: a byte prefix that is itself valid text is a text prefix. */
  lemma {:induction false} EncodedPrefix(s: string, t: string)
    requires Encode(s) <= Encode(t)
    ensures s <= t
  {
    hide EncodeChar, DecodeChar;
    if s != "" {
      var es, et := Encode(s), Encode(t);
      DecodeCharOfEncoded(s[0], Encode(s[1..]) + et[|es|..]);
      assert et == EncodeChar(s[0]) + (Encode(s[1..]) + et[|es|..]);
      DecodeCharOfEncoded(t[0], Encode(t[1..]));
      var w := |EncodeChar(s[0])|;
      assert es[w..] == Encode(s[1..]) && et[w..] == Encode(t[1..]);
      TailPrefix(es, et, w);
      EncodedPrefix(s[1..], t[1..]);
    }
  }

  predicate IsAscii(s: string) { forall i :: 0 <= i < |s| ==> s[i] as int < 0x80 }

  lemma {:induction false} EncodeAscii(s: string)
    requires IsAscii(s)
    ensures |Encode(s)| == |s| && forall i :: 0 <= i < |s| ==> Encode(s)[i] == s[i] as int
  {
    if s != "" { EncodeAscii(s[1..]); }
  }

  // ----- splitting

  /** The offset of the first `c`, or the length of `s` when there is none. */
  function IndexOf(s: string, c: char): (i: nat)
    ensures i <= |s| && (forall j :: 0 <= j < i ==> s[j] != c) && (i < |s| ==> s[i] == c)
  {
    if s == "" || s[0] == c then 0 else 1 + IndexOf(s[1..], c)
  }

  lemma IndexOfAt(s: string, c: char, i: nat)
    requires i <= |s| && (forall j :: 0 <= j < i ==> s[j] != c) && (i < |s| ==> s[i] == c)
    ensures IndexOf(s, c) == i
  {}

  /** `str::lines`: a line ends at "\n" or "\r\n"; a last line without "\n" keeps its text as it is. */
  function Lines(s: string): seq<string>
    decreases |s|
  {
    if s == "" then []
    else
      var i := IndexOf(s, '\n');
      if i == |s| then [s] else [StripReturn(s[..i])] + Lines(s[i + 1..])
  }

  function StripReturn(line: string): string
  {
    if line != "" && line[|line| - 1] == '\r' then line[..|line| - 1] else line
  }

  predicate EndsLine(s: string) { s == "" || s[|s| - 1] == '\n' }

  /** Lines of a text that ends its last line do not depend on what follows. */
  lemma {:induction false} LinesConcat(s: string, t: string)
    requires EndsLine(s)
    ensures Lines(s + t) == Lines(s) + Lines(t)
    decreases |s|
  {
    if s == "" {
      assert s + t == t;
    } else {
      var i := IndexOf(s, '\n');
      assert (s + t)[..i] == s[..i];
      IndexOfAt(s + t, '\n', i);
      assert (s + t)[i + 1..] == s[i + 1..] + t;
      LinesConcat(s[i + 1..], t);
    }
  }

  /** A text is its complete lines followed by an unfinished last line. */
  function LastBreak(s: string): (i: nat)
    ensures i <= |s| && EndsLine(s[..i]) && '\n' !in s[i..]
  {
    if s == "" then 0
    else if s[|s| - 1] == '\n' then assert s[..|s|] == s; |s|
    else
      var i := LastBreak(s[..|s| - 1]);
      assert s[..|s| - 1][..i] == s[..i];
      assert s[i..] == s[..|s| - 1][i..] + [s[|s| - 1]];
      i
  }

  lemma LinesOfOne(line: string)
    requires '\n' !in line
    ensures Lines(line + "\n") == [StripReturn(line)]
    ensures Lines(line) == if line == "" then [] else [line]
  {
    var s := line + "\n";
    assert s[..|line|] == line;
    IndexOfAt(s, '\n', |line|);
    assert s[|line| + 1..] == "";
    if line != "" { IndexOfAt(line, '\n', |line|); }
  }

  /** Unicode `White_Space`. */
  predicate IsWhite(c: char)
  {
    var v := c as int;
    9 <= v <= 13 || v == 0x20 || v == 0x85 || v == 0xA0 || v == 0x1680 || 0x2000 <= v <= 0x200A
    || v == 0x2028 || v == 0x2029 || v == 0x202F || v == 0x205F || v == 0x3000
  }

  /** `char::is_control`: the general category Cc. */
  predicate IsControl(c: char) { (c as int) < 0x20 || 0x7F <= (c as int) < 0xA0 }

  function WordLen(s: string): (n: nat)
    ensures n <= |s| && (forall i :: 0 <= i < n ==> !IsWhite(s[i])) && (n < |s| ==> IsWhite(s[n]))
  {
    if s == "" || IsWhite(s[0]) then 0 else 1 + WordLen(s[1..])
  }

  /** `str::split_whitespace`. */
  function Fields(s: string): (f: seq<string>)
    ensures forall i :: 0 <= i < |f| ==> f[i] != "" && forall j :: 0 <= j < |f[i]| ==> !IsWhite(f[i][j])
    decreases |s|
  {
    if s == "" then []
    else if IsWhite(s[0]) then Fields(s[1..])
    else var n := WordLen(s); [s[..n]] + Fields(s[n..])
  }

  predicate IsWord(w: string) { w != "" && forall i :: 0 <= i < |w| ==> !IsWhite(w[i]) }

  lemma FieldsOfWord(w: string, rest: string)
    requires IsWord(w) && (rest == "" || IsWhite(rest[0]))
    ensures Fields(w + rest) == [w] + Fields(rest)
  {
    var s := w + rest;
    var n := WordLen(s);
    assert rest != "" ==> s[|w|] == rest[0];
    assert n == |w|;
    assert s[..n] == w && s[n..] == rest;
  }

  /** `u64`'s `FromStr`: an optional plus sign, then decimal digits that do not overflow. */
  function ParseU64(s: string): (r: Option<nat>)
    ensures r.Some? ==> r.value <= U64_MAX
  {
    var digits := if s != "" && s[0] == '+' then s[1..] else s;
    if digits != "" && IsDecimal(digits) && Value(digits) <= U64_MAX then Some(Value(digits)) else None
  }

  predicate IsDecimal(s: string) { forall i :: 0 <= i < |s| ==> '0' <= s[i] <= '9' }

  function Value(s: string): nat
    requires IsDecimal(s)
  {
    if s == "" then 0 else 10 * Value(s[..|s| - 1]) + (s[|s| - 1] as int - '0' as int)
  }

  /** Decimal formatting of an unsigned integer. */
  function Decimal(n: nat): (s: string)
    ensures s != "" && IsDecimal(s) && Value(s) == n
  {
    if n < 10 then
      var s := [(n + '0' as int) as char];
      assert s[..0] == "";
      s
    else
      var s := Decimal(n / 10) + [(n % 10 + '0' as int) as char];
      assert s[..|s| - 1] == Decimal(n / 10);
      s
  }

  lemma ParseDecimal(n: nat)
    requires n <= U64_MAX
    ensures ParseU64(Decimal(n)) == Some(n)
  {
    assert '0' <= Decimal(n)[0] <= '9';
  }

  /** Splitting at every separator, as `str::split` does: one more part than separators. */
  function Split(s: string, c: char): (parts: seq<string>)
    ensures |parts| > 0 && forall i :: 0 <= i < |parts| ==> c !in parts[i]
    decreases |s|
  {
    var i := IndexOf(s, c);
    if i == |s| then assert s[..i] == s; [s] else [s[..i]] + Split(s[i + 1..], c)
  }

  function Join(parts: seq<string>, c: char): string
    requires |parts| > 0
  {
    if |parts| == 1 then parts[0] else parts[0] + [c] + Join(parts[1..], c)
  }

  lemma JoinCons(head: string, rest: seq<string>, c: char)
    requires rest != []
    ensures Join([head] + rest, c) == head + [c] + Join(rest, c)
  {
    assert ([head] + rest)[1..] == rest;
  }

  /** `Split` and `Join` are inverse. */
  lemma {:induction false} JoinSplit(s: string, c: char)
    ensures Join(Split(s, c), c) == s
    decreases |s|
  {
    var i := IndexOf(s, c);
    if i < |s| {
      JoinSplit(s[i + 1..], c);
      var rest := Split(s[i + 1..], c);
      assert Split(s, c) == [s[..i]] + rest;
      JoinCons(s[..i], rest, c);
      assert s == s[..i] + [c] + s[i + 1..];
    }
  }
}
