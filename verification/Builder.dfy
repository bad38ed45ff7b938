/** The archives the release builder writes, field by field, and what the preflight says of them. */
module UstarBuilder {
  import opened Common
  import opened Ustar

  // ----- numbers in octal

  function Eights(k: nat): nat { if k == 0 then 1 else 8 * Eights(k - 1) }

  /** The last `k` octal digits of `n`, as ASCII. */
  function Digits(n: nat, k: nat): (d: seq<byte>)
    ensures |d| == k
  {
    if k == 0 then [] else Digits(n / 8, k - 1) + [0x30 + n % 8]
  }

  lemma {:induction false} DigitsRead(n: nat, k: nat)
    requires n < Eights(k)
    ensures IsOctal(Digits(n, k)) && OctalValue(Digits(n, k)) == n
  {
    if k > 0 {
      DigitsRead(n / 8, k - 1);
      assert Digits(n, k)[..k - 1] == Digits(n / 8, k - 1);
    }
  }

  predicate IsPadding(b: seq<byte>) { forall i :: 0 <= i < |b| ==> b[i] == 0 || b[i] == 0x20 }

  lemma {:induction false} StripsLeft(padding: seq<byte>, rest: seq<byte>)
    requires IsPadding(padding) && rest != [] && !IsPad(rest[0])
    ensures StripLeft(padding + rest) == rest
  {
    if padding == [] {
      assert padding + rest == rest;
    } else {
      assert (padding + rest)[1..] == padding[1..] + rest;
      StripsLeft(padding[1..], rest);
    }
  }

  lemma {:induction false} StripsRight(rest: seq<byte>, padding: seq<byte>)
    requires IsPadding(padding) && rest != [] && !IsPad(rest[|rest| - 1])
    ensures StripRight(rest + padding) == rest
  {
    if padding == [] {
      assert rest + padding == rest;
    } else {
      var front := padding[..|padding| - 1];
      assert (rest + padding)[..|rest + padding| - 1] == rest + front;
      StripsRight(rest, front);
    }
  }

  /** A number written in octal, in any number of digits that holds it, with NULs and spaces around it, is read back. */
  lemma OctalIsReadBack(before: seq<byte>, n: nat, k: nat, after: seq<byte>)
    requires IsPadding(before) && IsPadding(after) && 0 < k && n < Eights(k)
    ensures Octal(before + Digits(n, k) + after) == Some(n)
  {
    hide Digits, OctalValue, StripLeft, StripRight;
    var digits := Digits(n, k);
    DigitsRead(n, k);
    assert before + digits + after == before + (digits + after);
    StripsLeft(before, digits + after);
    StripsRight(digits, after);
  }

  lemma {:induction false} StrippedLeft(f: seq<byte>) returns (padding: seq<byte>)
    ensures IsPadding(padding) && f == padding + StripLeft(f)
  {
    if f != [] && IsPad(f[0]) {
      padding := StrippedLeft(f[1..]);
      padding := [f[0]] + padding;
      assert f == [f[0]] + f[1..];
    } else {
      padding := [];
    }
  }

  lemma {:induction false} StrippedRight(f: seq<byte>) returns (padding: seq<byte>)
    ensures IsPadding(padding) && f == StripRight(f) + padding
  {
    if f != [] && IsPad(f[|f| - 1]) {
      padding := StrippedRight(f[..|f| - 1]);
      padding := padding + [f[|f| - 1]];
      assert f == f[..|f| - 1] + [f[|f| - 1]];
    } else {
      padding := [];
    }
  }

  lemma {:induction false} DigitsOf(d: seq<byte>)
    requires IsOctal(d)
    ensures OctalValue(d) < Eights(|d|) && Digits(OctalValue(d), |d|) == d
  {
    if d != [] {
      var front := d[..|d| - 1];
      DigitsOf(front);
      assert d == front + [d[|d| - 1]];
    }
  }

  /** ... and nothing else is read as that number. */
  lemma OctalIsWritten(field: seq<byte>, n: nat) returns (before: seq<byte>, k: nat, after: seq<byte>)
    requires Octal(field) == Some(n)
    ensures IsPadding(before) && IsPadding(after) && 0 < k && n < Eights(k)
    ensures field == before + Digits(n, k) + after
  {
    hide Digits, OctalValue, StripLeft, StripRight;
    before := StrippedLeft(field);
    after := StrippedRight(StripLeft(field));
    var digits := StripRight(StripLeft(field));
    k := |digits|;
    DigitsOf(digits);
    assert field == before + (digits + after);
  }

  // ----- sums

  lemma {:induction false} SumConcat(a: seq<byte>, b: seq<byte>)
    ensures Sum(a + b) == Sum(a) + Sum(b)
    decreases |b|
  {
    if b == [] {
      assert a + b == a;
    } else {
      assert (a + b)[..|a + b| - 1] == a + b[..|b| - 1];
      SumConcat(a, b[..|b| - 1]);
    }
  }

  lemma {:induction false} SumBound(b: seq<byte>)
    ensures Sum(b) <= 255 * |b|
  {
    if b != [] { SumBound(b[..|b| - 1]); }
  }

  // ----- headers

  /** What else a header holds: owner, time, type flag, owner names and devices, and the last bytes. */
  datatype Extra = Extra(owner: seq<byte>, time: seq<byte>, flag: byte, names: seq<byte>, rest: seq<byte>) {
    predicate Valid() { |owner| == 16 && |time| == 12 && flag in {0x30, 0} && |names| == 80 && |rest| == 12 }
  }

  const SPACES: seq<byte> := [0x20, 0x20, 0x20, 0x20, 0x20, 0x20, 0x20, 0x20]

  /** "ustar", a NUL and "00". */
  const MARK: seq<byte> := [0x75, 0x73, 0x74, 0x61, 0x72, 0x00, 0x30, 0x30]

  function Before(name: seq<byte>, mode: nat, size: nat, x: Extra): (b: seq<byte>)
    requires |name| <= 100 && x.Valid()
    ensures |b| == 148
  {
    name + Zeros(100 - |name|) + Digits(mode, 7) + [0] + x.owner + Digits(size, 11) + [0] + x.time
  }

  function Behind(x: Extra): (b: seq<byte>)
    requires x.Valid()
    ensures |b| == 356
  {
    [x.flag] + Zeros(100) + MARK + x.names + Zeros(155) + x.rest
  }

  /** The checksum is the sum of the header with spaces in its own place. */
  function Header(name: seq<byte>, mode: nat, size: nat, x: Extra): (h: seq<byte>)
    requires |name| <= 100 && x.Valid()
    ensures |h| == BLOCK
  {
    var sum := Sum(Before(name, mode, size, x) + SPACES + Behind(x));
    Before(name, mode, size, x) + (Digits(sum, 6) + [0, 0x20]) + Behind(x)
  }

  function Ascii(s: string): (b: seq<byte>)
    requires forall i :: 0 <= i < |s| ==> s[i] < 128 as char
    ensures |b| == |s| && forall i :: 0 <= i < |s| ==> b[i] == s[i] as int
  {
    seq(|s|, i requires 0 <= i < |s| => s[i] as int)
  }

  lemma MembersAreSpelled()
    ensures MEMBERS == {Ascii("xget"), Ascii("LICENSE-MIT"), Ascii("LICENSE-APACHE"), Ascii("INSTALL.txt"),
                        Ascii("build.json")}
    ensures forall name :: name in MEMBERS ==> 0 < |name| <= 14 && 0 !in name
  {
    assert XGET == Ascii("xget");
    assert LICENSE_MIT == Ascii("LICENSE-MIT");
    assert LICENSE_APACHE == Ascii("LICENSE-APACHE");
    assert INSTALL_TXT == Ascii("INSTALL.txt");
    assert BUILD_JSON == Ascii("build.json");
  }

  lemma BeforeFields(name: seq<byte>, mode: nat, size: nat, x: Extra)
    requires |name| <= 100 && x.Valid()
    ensures var b := Before(name, mode, size, x);
            && b[..100] == name + Zeros(100 - |name|)
            && b[100..108] == Digits(mode, 7) + [0] && b[124..136] == Digits(size, 11) + [0]
  {
    hide Digits;
    var a, c := name + Zeros(100 - |name|), Digits(mode, 7) + [0];
    var d := Digits(size, 11) + [0];
    assert Before(name, mode, size, x) == a + c + x.owner + d + x.time;
  }

  lemma BehindFields(x: Extra)
    requires x.Valid()
    ensures var b := Behind(x); b[0] == x.flag && b[101..109] == MARK && AllZero(b[1..101]) && AllZero(b[189..344])
  {
    var b := Behind(x);
    assert b[1..101] == Zeros(100) && b[189..344] == Zeros(155);
  }

  lemma HeaderFields(name: seq<byte>, mode: nat, size: nat, x: Extra)
    requires |name| <= 100 && x.Valid()
    ensures var h := Header(name, mode, size, x);
            && h[..148] == Before(name, mode, size, x) && h[156..] == Behind(x)
            && h[148..156] == Digits(Sum(Before(name, mode, size, x)) + 256 + Sum(Behind(x)), 6) + [0, 0x20]
            && Sum(h[..148]) + 256 + Sum(h[156..]) < 262144
  {
    hide Digits, Sum, Before, Behind;
    var b, c := Before(name, mode, size, x), Behind(x);
    SumConcat(b + SPACES, c);
    SumConcat(b, SPACES);
    SpacesSum();
    SumBound(b);
    SumBound(c);
  }

  lemma SpacesSum()
    ensures Sum(SPACES) == 256
  {
    hide Sum;
    var four := [0x20, 0x20, 0x20, 0x20];
    assert SPACES == four + four;
    SumConcat(four, four);
    FourSpaces(four);
  }

  lemma FourSpaces(four: seq<byte>)
    requires four == [0x20, 0x20, 0x20, 0x20]
    ensures Sum(four) == 128
  {
    assert four[..3][..2] == four[..2] && four[..2][..1] == four[..1] && four[..1][..0] == [];
    assert Sum(four[..1]) == 0x20;
    assert Sum(four[..2]) == 0x40;
    assert Sum(four[..3]) == 0x60;
  }

  lemma EightsOf()
    ensures Eights(6) == 262144
  {
    assert Eights(3) == 512;
  }

  predicate IsPlainMode(mode: nat) { mode % 4096 < 512 }

  /** A builder's header is one the preflight takes, with its name and its size in whole blocks, exactly when none of
      the three special bits is in its mode. */
  lemma HeaderIsTaken(name: seq<byte>, mode: nat, size: nat, x: Extra)
    requires name in MEMBERS && x.Valid() && mode < Eights(7) && size < Eights(11)
    ensures |name| <= 14
    ensures var h := Header(name, mode, size, x);
            && NameOf(h) == name && !AllZero(h)
            && (IsHeader(h) <==> IsPlainMode(mode))
            && (IsHeader(h) ==> PaddedSize(h) % 512 == 0 && size <= PaddedSize(h) < size + 512)
  {
    hide Digits, Sum, Before, Behind, Octal, Header, NameOf, IsHeader, AllZero, PaddedSize;
    MembersAreSpelled();
    var h := Header(name, mode, size, x);
    HeaderReads(name, mode, size, x, h);
    FieldsDecide(h, name, mode, size);
  }

  lemma HeaderReads(name: seq<byte>, mode: nat, size: nat, x: Extra, h: seq<byte>)
    requires 0 < |name| < 100 && 0 !in name && x.Valid() && mode < Eights(7) && size < Eights(11)
    requires h == Header(name, mode, size, x)
    ensures NameOf(h) == name && h[..100] == name + Zeros(100 - |name|)
    ensures h[156] in {0x30, 0} && h[257..265] == MARK && AllZero(h[157..257]) && AllZero(h[345..500])
    ensures Octal(h[100..108]) == Some(mode) && Octal(h[124..136]) == Some(size)
    ensures Octal(h[148..156]) == Some(Sum(h[..148]) + 256 + Sum(h[156..]))
  {
    hide Digits, Sum, Before, Behind, Octal, Header, NameOf, AllZero, Eights;
    HeaderFields(name, mode, size, x);
    BeforeFields(name, mode, size, x);
    BehindFields(x);
    NameIsRead(name, h);
    EightsOf();
    FieldIsRead(mode, 7, [0]);
    FieldIsRead(size, 11, [0]);
    FieldIsRead(Sum(h[..148]) + 256 + Sum(h[156..]), 6, [0, 0x20]);
    SlicesOf(h);
  }

  lemma FieldsDecide(h: seq<byte>, name: seq<byte>, mode: nat, size: nat)
    requires |h| == BLOCK && name in MEMBERS && NameOf(h) == name && |name| <= 100
    requires h[..100] == name + Zeros(100 - |name|)
    requires h[156] in {0x30, 0} && h[257..265] == MARK && AllZero(h[157..257]) && AllZero(h[345..500])
    requires Octal(h[100..108]) == Some(mode) && Octal(h[124..136]) == Some(size)
    requires Octal(h[148..156]) == Some(Sum(h[..148]) + 256 + Sum(h[156..]))
    ensures !AllZero(h) && (IsHeader(h) <==> IsPlainMode(mode))
    ensures IsHeader(h) ==> PaddedSize(h) % 512 == 0 && size <= PaddedSize(h) < size + 512
  {
    hide Sum, Octal, NameOf;
    assert h[257] == h[257..265][0];
  }

  predicate IsNamed(h: seq<byte>, name: seq<byte>)
    requires |h| == BLOCK
  {
    name in MEMBERS && |name| <= 100 && h[..100] == name + Zeros(100 - |name|)
  }

  lemma NamedIs(h: seq<byte>)
    requires |h| == BLOCK
    ensures (exists name :: IsNamed(h, name)) <==>
            NameOf(h) in MEMBERS && h[..100] == NameOf(h) + Zeros(100 - |NameOf(h)|)
  {
    hide NameOf;
    MembersAreSpelled();
    if name :| IsNamed(h, name) { NameIsRead(name, h); }
    if NameOf(h) in MEMBERS && h[..100] == NameOf(h) + Zeros(100 - |NameOf(h)|) { assert IsNamed(h, NameOf(h)); }
  }

  lemma SumIs(h: seq<byte>)
    requires |h| == BLOCK
    ensures Sum(h[..148] + SPACES + h[156..]) == Sum(h[..148]) + 8 * 32 + Sum(h[156..])
  {
    hide Sum;
    SumConcat(h[..148] + SPACES, h[156..]);
    SumConcat(h[..148], SPACES);
    SpacesSum();
  }

  lemma AllZeroIs(b: seq<byte>)
    ensures AllZero(b) <==> b == Zeros(|b|)
  {}

  predicate IsNumber(field: seq<byte>) { Octal(field).Some? }

  /** Field by field, what the preflight takes for a header. */
  lemma HeaderIs(h: seq<byte>)
    ensures IsHeader(h)
       <==> && |h| == 512 && (exists name :: IsNamed(h, name))
            && (h[156] == 0x30 || h[156] == 0) && h[257..265] == MARK
            && h[157..257] == Zeros(100) && h[345..500] == Zeros(155)
            && IsNumber(h[100..108]) && IsPlainMode(Octal(h[100..108]).value) && IsNumber(h[124..136])
            && Octal(h[148..156]) == Some(Sum(h[..148] + SPACES + h[156..]))
  {
    hide Sum, Octal, NameOf, IsNamed, AllZero;
    if |h| == 512 {
      NamedIs(h);
      SumIs(h);
      AllZeroIs(h[157..257]);
      AllZeroIs(h[345..500]);
    }
  }

  lemma FieldIsRead(n: nat, k: nat, after: seq<byte>)
    requires 0 < k && n < Eights(k) && IsPadding(after)
    ensures Octal(Digits(n, k) + after) == Some(n)
  {
    hide Digits, Octal, Eights;
    OctalIsReadBack([], n, k, after);
    assert [] + Digits(n, k) + after == Digits(n, k) + after;
  }

  lemma SlicesOf(h: seq<byte>)
    requires |h| == BLOCK
    ensures h[..100] == h[..148][..100] && h[100..108] == h[..148][100..108] && h[124..136] == h[..148][124..136]
    ensures h[156] == h[156..][0] && h[157..257] == h[156..][1..101]
    ensures h[257..265] == h[156..][101..109] && h[345..500] == h[156..][189..344]
  {}

  lemma NameIsRead(name: seq<byte>, h: seq<byte>)
    requires |name| < 100 && 0 !in name && |h| == BLOCK && h[..100] == name + Zeros(100 - |name|)
    ensures NameOf(h) == name
  {
    UpToNulReads(name, Zeros(100 - |name|));
  }

  lemma {:induction false} UpToNulReads(name: seq<byte>, zeros: seq<byte>)
    requires 0 !in name && zeros != [] && zeros[0] == 0
    ensures UpToNul(name + zeros) == name
  {
    if name == [] {
      assert name + zeros == zeros;
    } else {
      assert (name + zeros)[1..] == name[1..] + zeros;
      UpToNulReads(name[1..], zeros);
    }
  }

  // ----- archives

  datatype Entry = Entry(name: seq<byte>, mode: nat, content: seq<byte>, extra: Extra) {
    predicate Valid() { name in MEMBERS && extra.Valid() && mode < Eights(7) && |content| < Eights(11) }
  }

  /** Zeros to the end of a block. */
  function Fill(n: nat): seq<byte> { Zeros((512 - n % 512) % 512) }

  function Archived(e: Entry): seq<byte>
    requires |e.name| <= 100 && e.extra.Valid()
  {
    Header(e.name, e.mode, |e.content|, e.extra) + (e.content + Fill(|e.content|))
  }

  predicate AllBuilt(entries: seq<Entry>)
  {
    forall i :: 0 <= i < |entries| ==> entries[i].Valid() && |entries[i].name| <= 100
  }

  function AllArchived(entries: seq<Entry>): seq<byte>
    requires AllBuilt(entries)
  {
    if entries == [] then [] else Archived(entries[0]) + AllArchived(entries[1..])
  }

  function NamesOf(entries: seq<Entry>): seq<seq<byte>>
  {
    if entries == [] then [] else [entries[0].name] + NamesOf(entries[1..])
  }

  predicate Plain(entries: seq<Entry>) { forall i :: 0 <= i < |entries| ==> IsPlainMode(entries[i].mode) }

  /** What the builder's archive is read as, from `names` on: taken exactly when no mode has a special bit. */
  lemma {:induction false} BuiltIsRead(entries: seq<Entry>, zeros: nat, names: set<seq<byte>>)
    requires AllBuilt(entries) && zeros >= 2 * BLOCK
    requires forall name :: name in NamesOf(entries) ==> name !in names
    requires forall i, j :: 0 <= i < j < |entries| ==> entries[i].name != entries[j].name
    requires names + (set name | name in NamesOf(entries)) == MEMBERS
    ensures Accepts(AllArchived(entries) + Zeros(zeros), names) <==> Plain(entries)
    decreases |entries|
  {
    hide Archived, Accepts, Header, IsHeader, NameOf, PaddedSize;
    var rest := AllArchived(entries) + Zeros(zeros);
    AcceptsStep(rest, names);
    if entries == [] {
      assert rest == Zeros(zeros) && rest[..BLOCK] == Zeros(BLOCK);
    } else {
      var e, more := entries[0], entries[1..];
      FrontIsRead(e, AllArchived(more) + Zeros(zeros));
      assert rest == Archived(e) + (AllArchived(more) + Zeros(zeros));
      NamesAhead(entries);
      if IsPlainMode(e.mode) {
        BuiltIsRead(more, zeros, names + {e.name});
      }
      PlainCons(entries);
    }
  }

  lemma PlainCons(entries: seq<Entry>)
    requires entries != []
    ensures Plain(entries) <==> IsPlainMode(entries[0].mode) && Plain(entries[1..])
  {
    assert forall i :: 0 < i < |entries| ==> entries[i] == entries[1..][i - 1];
  }

  lemma {:induction false} NamesAhead(entries: seq<Entry>)
    requires entries != [] && forall i, j :: 0 <= i < j < |entries| ==> entries[i].name != entries[j].name
    ensures NamesOf(entries) == [entries[0].name] + NamesOf(entries[1..])
    ensures entries[0].name !in NamesOf(entries[1..])
  {
    NamesInOrder(entries[1..]);
  }

  lemma {:induction false} NamesInOrder(entries: seq<Entry>)
    ensures |NamesOf(entries)| == |entries| && forall i :: 0 <= i < |entries| ==> NamesOf(entries)[i] == entries[i].name
  {
    if entries != [] { NamesInOrder(entries[1..]); }
  }

  lemma FrontIsRead(e: Entry, rest: seq<byte>)
    requires e.Valid() && |e.name| <= 100
    ensures var stream := Archived(e) + rest;
            && |stream| >= BLOCK && !AllZero(stream[..BLOCK]) && NameOf(stream[..BLOCK]) == e.name
            && (IsHeader(stream[..BLOCK]) <==> IsPlainMode(e.mode))
            && (IsHeader(stream[..BLOCK]) ==> BLOCK + PaddedSize(stream[..BLOCK]) <= |stream|
                                               && stream[BLOCK + PaddedSize(stream[..BLOCK])..] == rest)
  {
    hide Header, IsHeader, NameOf, PaddedSize, AllZero;
    var h, body := Header(e.name, e.mode, |e.content|, e.extra), e.content + Fill(|e.content|);
    HeaderIsTaken(e.name, e.mode, |e.content|, e.extra);
    var stream := Archived(e) + rest;
    assert stream == h + (body + rest);
    assert stream[..BLOCK] == h;
    if IsHeader(h) { WholeBlocks(|e.content|, PaddedSize(h)); }
  }

  lemma WholeBlocks(n: nat, padded: nat)
    requires padded % 512 == 0 && n <= padded < n + 512
    ensures n + (512 - n % 512) % 512 == padded
  {}

  /** The preflight takes a builder's archive of the five members, within the bound, exactly when no mode has a special
      bit. */
  lemma BuiltArchives(entries: seq<Entry>, zeros: nat)
    requires AllBuilt(entries) && zeros >= 2 * BLOCK && |AllArchived(entries)| + zeros <= MAX_ARCHIVE
    requires forall i, j :: 0 <= i < j < |entries| ==> entries[i].name != entries[j].name
    requires (set name | name in NamesOf(entries)) == MEMBERS
    ensures (exists members, z: nat :: IsArchive(AllArchived(entries) + Zeros(zeros), members, z)) <==> Plain(entries)
  {
    hide AllArchived, Accepts, IsArchive, AllBuilt, NamesOf, Plain;
    ArchivesAreAccepted(AllArchived(entries) + Zeros(zeros));
    assert {} + (set name | name in NamesOf(entries)) == MEMBERS;
    BuiltIsRead(entries, zeros, {});
  }

  /** The release: the five members, the program with mode 0755 and the rest with 0644. */
  function Release(contents: seq<seq<byte>>, x: Extra): (entries: seq<Entry>)
    requires |contents| == 5
  {
    [Entry(BUILD_JSON, 0x1A4, contents[0], x), Entry(INSTALL_TXT, 0x1A4, contents[1], x),
     Entry(LICENSE_APACHE, 0x1A4, contents[2], x), Entry(LICENSE_MIT, 0x1A4, contents[3], x),
     Entry(XGET, 0x1ED, contents[4], x)]
  }

  lemma ReleaseIsBuilt(contents: seq<seq<byte>>, x: Extra)
    requires |contents| == 5 && x.Valid() && forall c :: c in contents ==> |c| < Eights(11)
    ensures var entries := Release(contents, x);
            && AllBuilt(entries) && Plain(entries)
            && (forall i, j :: 0 <= i < j < |entries| ==> entries[i].name != entries[j].name)
            && (set name | name in NamesOf(entries)) == MEMBERS
  {
    hide NamesOf, Eights;
    assert forall i :: 0 <= i < 5 ==> contents[i] in contents;
    ModesFit();
    DistinctMembers();
    ReleaseNames(Release(contents, x), BUILD_JSON, INSTALL_TXT, LICENSE_APACHE, LICENSE_MIT, XGET);
  }

  lemma ReleaseNames(entries: seq<Entry>, a: seq<byte>, b: seq<byte>, c: seq<byte>, d: seq<byte>, e: seq<byte>)
    requires |entries| == 5 && entries[0].name == a && entries[1].name == b && entries[2].name == c
    requires entries[3].name == d && entries[4].name == e
    ensures (set name | name in NamesOf(entries)) == {a, b, c, d, e}
  {
    hide NamesOf;
    NamesInOrder(entries);
    var names := NamesOf(entries);
    assert forall i :: 0 <= i < 5 ==> names[i] == entries[i].name;
    assert names == [a, b, c, d, e];
  }

  lemma ModesFit()
    ensures 0x1ED < Eights(7)
  {
    assert Eights(3) == 512;
    assert Eights(5) == 64 * Eights(3);
  }

  lemma DistinctMembers()
    ensures |XGET| == 4 && |LICENSE_MIT| == 11 && |LICENSE_APACHE| == 14 && |INSTALL_TXT| == 11 && |BUILD_JSON| == 10
    ensures LICENSE_MIT[0] != INSTALL_TXT[0]
  {}

  /** Every release within the bound is taken. */
  lemma ReleasesAreTaken(contents: seq<seq<byte>>, x: Extra, zeros: nat)
    requires |contents| == 5 && x.Valid() && forall c :: c in contents ==> |c| < Eights(11)
    requires AllBuilt(Release(contents, x))
    requires zeros >= 2 * BLOCK && |AllArchived(Release(contents, x))| + zeros <= MAX_ARCHIVE
    ensures exists members, z: nat :: IsArchive(AllArchived(Release(contents, x)) + Zeros(zeros), members, z)
  {
    hide Release, AllArchived, AllBuilt, Plain, NamesOf, IsArchive;
    ReleaseIsBuilt(contents, x);
    BuiltArchives(Release(contents, x), zeros);
  }
}
