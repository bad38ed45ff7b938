/** The USTAR preflight: a bounded recogniser for the five-member archives the release builder writes. */
module Ustar {
  import opened Common

  const MAX_ARCHIVE: nat := 512 * 1024 * 1024
  const BLOCK: nat := 512
  const READ: nat := 64 * 1024

  /** The member names, as ASCII bytes. */
  const XGET: seq<byte> := [0x78, 0x67, 0x65, 0x74]
  const LICENSE_MIT: seq<byte> := [0x4C, 0x49, 0x43, 0x45, 0x4E, 0x53, 0x45, 0x2D, 0x4D, 0x49, 0x54]
  const LICENSE_APACHE: seq<byte> :=
    [0x4C, 0x49, 0x43, 0x45, 0x4E, 0x53, 0x45, 0x2D, 0x41, 0x50, 0x41, 0x43, 0x48, 0x45]
  const INSTALL_TXT: seq<byte> := [0x49, 0x4E, 0x53, 0x54, 0x41, 0x4C, 0x4C, 0x2E, 0x74, 0x78, 0x74]
  const BUILD_JSON: seq<byte> := [0x62, 0x75, 0x69, 0x6C, 0x64, 0x2E, 0x6A, 0x73, 0x6F, 0x6E]
  const MEMBERS: set<seq<byte>> := {XGET, LICENSE_MIT, LICENSE_APACHE, INSTALL_TXT, BUILD_JSON}

  /** "ustar", a NUL and the version "00". */
  const USTAR_MAGIC: seq<byte> := [0x75, 0x73, 0x74, 0x61, 0x72, 0x00, 0x30, 0x30]

  // ----- fields

  predicate IsPad(b: byte) { b == 0 || b == 0x20 }

  function StripLeft(f: seq<byte>): (s: seq<byte>)
    ensures |s| <= |f|
  {
    if f != [] && IsPad(f[0]) then StripLeft(f[1..]) else f
  }

  function StripRight(f: seq<byte>): (s: seq<byte>)
    ensures |s| <= |f|
  {
    if f != [] && IsPad(f[|f| - 1]) then StripRight(f[..|f| - 1]) else f
  }

  predicate IsOctal(digits: seq<byte>) { forall i :: 0 <= i < |digits| ==> 0x30 <= digits[i] <= 0x37 }

  function OctalValue(digits: seq<byte>): nat
    requires IsOctal(digits)
  {
    if digits == [] then 0 else 8 * OctalValue(digits[..|digits| - 1]) + (digits[|digits| - 1] - 0x30)
  }

  /** `ustar_octal`: NULs and spaces stripped from both ends, then at least one octal digit and nothing else. */
  function Octal(field: seq<byte>): Option<nat>
  {
    var digits := StripRight(StripLeft(field));
    if digits != [] && IsOctal(digits) then Some(OctalValue(digits)) else None
  }

  function Sum(b: seq<byte>): nat
  {
    if b == [] then 0 else Sum(b[..|b| - 1]) + b[|b| - 1]
  }

  predicate AllZero(b: seq<byte>) { forall i :: 0 <= i < |b| ==> b[i] == 0 }

  /** The bytes before the first NUL. */
  function UpToNul(b: seq<byte>): (n: seq<byte>)
    ensures |n| <= |b| && n == b[..|n|]
  {
    if b == [] || b[0] == 0 then [] else [b[0]] + UpToNul(b[1..])
  }

  function NameOf(header: seq<byte>): seq<byte>
  {
    UpToNul(header[..Min(100, |header|)])
  }

  /** A flat regular header of one of the members, with its checksum right and no special mode bits. */
  predicate IsHeader(header: seq<byte>)
  {
    && |header| == BLOCK
    && (header[156] == 0x30 || header[156] == 0) && header[257..265] == USTAR_MAGIC
    && AllZero(header[157..257]) && AllZero(header[345..500])
    && NameOf(header) in MEMBERS && header[..100] == NameOf(header) + Zeros(100 - |NameOf(header)|)
    && Octal(header[148..156]) == Some(Sum(header[..148]) + 8 * 32 + Sum(header[156..]))
    && Octal(header[124..136]).Some?
    && Octal(header[100..108]).Some? && Octal(header[100..108]).value / 512 % 8 == 0
  }

  /** The size, rounded up to whole blocks. */
  function PaddedSize(header: seq<byte>): (padded: nat)
    requires IsHeader(header)
    ensures var size := Octal(header[124..136]).value; padded % BLOCK == 0 && size <= padded < size + BLOCK
  {
    (Octal(header[124..136]).value + 511) / 512 * 512
  }

  // ----- what an archive is

  datatype Member = Member(header: seq<byte>, body: seq<byte>) {
    predicate Valid() { IsHeader(header) && |body| == PaddedSize(header) }
  }

  predicate DistinctNames(members: seq<Member>)
  {
    forall i, j :: 0 <= i < j < |members| ==> NameOf(members[i].header) != NameOf(members[j].header)
  }

  function Laid(members: seq<Member>): seq<byte>
  {
    if members == [] then [] else members[0].header + members[0].body + Laid(members[1..])
  }

  function Names(members: seq<Member>): set<seq<byte>>
  {
    set i | 0 <= i < |members| :: NameOf(members[i].header)
  }

  predicate AllValid(members: seq<Member>) { forall i :: 0 <= i < |members| ==> members[i].Valid() }

  /** Every member once, then at least two zero blocks' worth of zeros, all within the bound. */
  ghost predicate IsArchive(stream: seq<byte>, members: seq<Member>, zeros: nat)
  {
    && AllValid(members) && DistinctNames(members) && Names(members) == MEMBERS
    && zeros >= 2 * BLOCK && stream == Laid(members) + Zeros(zeros) && |stream| <= MAX_ARCHIVE
  }

  // ----- reading front to back

  /** What the recogniser decides of the rest of a stream, once `names` have been seen. */
  predicate Accepts(rest: seq<byte>, names: set<seq<byte>>)
    decreases |rest|
  {
    && |rest| >= BLOCK
    && var header := rest[..BLOCK];
      if AllZero(header) then |rest| >= 2 * BLOCK && AllZero(rest) && names == MEMBERS
      else
        && IsHeader(header) && NameOf(header) !in names && BLOCK + PaddedSize(header) <= |rest|
        && Accepts(rest[BLOCK + PaddedSize(header)..], names + {NameOf(header)})
  }

  lemma HeaderIsNotZero(header: seq<byte>)
    requires IsHeader(header)
    ensures !AllZero(header)
  {
    assert header[257] == header[257..265][0];
  }

  lemma NamesCons(m: Member, rest: seq<Member>)
    ensures Names([m] + rest) == {NameOf(m.header)} + Names(rest)
  {
    var all := [m] + rest;
    forall x | x in {NameOf(m.header)} + Names(rest)
      ensures x in Names(all)
    {
      if x == NameOf(m.header) {
        assert all[0] == m;
      } else {
        var i :| 0 <= i < |rest| && x == NameOf(rest[i].header);
        assert all[i + 1] == rest[i];
      }
    }
  }

  /** Accepting yields the members. */
  lemma {:induction false} AcceptedIsLaid(rest: seq<byte>, names: set<seq<byte>>)
    returns (members: seq<Member>, zeros: nat)
    requires Accepts(rest, names)
    ensures AllValid(members) && DistinctNames(members) && Names(members) !! names && Names(members) + names == MEMBERS
    ensures zeros >= 2 * BLOCK && rest == Laid(members) + Zeros(zeros)
    decreases |rest|
  {
    hide IsHeader, NameOf, PaddedSize;
    var header := rest[..BLOCK];
    if AllZero(header) {
      members, zeros := [], |rest|;
      assert rest == Zeros(zeros);
    } else {
      var end := BLOCK + PaddedSize(header);
      var m := Member(header, rest[BLOCK..end]);
      var more, z := AcceptedIsLaid(rest[end..], names + {NameOf(header)});
      members, zeros := [m] + more, z;
      AddMember(m, more, names);
      assert rest == header + m.body + rest[end..];
      LaidCons(m, more, zeros);
    }
  }

  lemma LaidCons(m: Member, more: seq<Member>, zeros: nat)
    ensures Laid([m] + more) + Zeros(zeros) == m.header + m.body + (Laid(more) + Zeros(zeros))
  {
    assert ([m] + more)[1..] == more;
  }

  lemma AddMember(m: Member, more: seq<Member>, names: set<seq<byte>>)
    requires m.Valid() && NameOf(m.header) !in names
    requires AllValid(more) && DistinctNames(more) && Names(more) !! names + {NameOf(m.header)}
    ensures AllValid([m] + more) && DistinctNames([m] + more)
    ensures Names([m] + more) !! names && Names([m] + more) + names == Names(more) + (names + {NameOf(m.header)})
  {
    hide NameOf, IsHeader, PaddedSize;
    var all := [m] + more;
    NamesCons(m, more);
    NamedIn(more);
    assert all[0] == m && forall i :: 0 < i < |all| ==> all[i] == more[i - 1];
  }

  lemma NamedIn(members: seq<Member>)
    ensures forall i :: 0 <= i < |members| ==> NameOf(members[i].header) in Names(members)
  {}

  /** Any laid-out archive is accepted. */
  lemma {:induction false} LaidIsAccepted(rest: seq<byte>, names: set<seq<byte>>, members: seq<Member>, zeros: nat)
    requires AllValid(members) && DistinctNames(members) && Names(members) !! names && Names(members) + names == MEMBERS
    requires zeros >= 2 * BLOCK && rest == Laid(members) + Zeros(zeros)
    ensures Accepts(rest, names)
    decreases |members|
  {
    hide IsHeader, NameOf, PaddedSize, DistinctNames, Names;
    if members == [] {
      NamesOfNone();
      assert rest == Zeros(zeros);
      assert AllZero(rest[..BLOCK]);
    } else {
      var m, more := members[0], members[1..];
      assert members == [m] + more;
      FrontIsHeader(rest, members, zeros);
      var end := BLOCK + PaddedSize(m.header);
      MoreNames(m, more, names);
      NamesCons(m, more);
      LaidIsAccepted(rest[end..], names + {NameOf(m.header)}, more, zeros);
    }
  }

  lemma NamesOfNone()
    ensures Names([]) == {}
  {}

  lemma MoreNames(m: Member, more: seq<Member>, names: set<seq<byte>>)
    requires DistinctNames([m] + more) && AllValid([m] + more)
    requires Names([m] + more) !! names
    ensures NameOf(m.header) !in names && AllValid(more) && DistinctNames(more)
    ensures Names(more) !! names + {NameOf(m.header)}
  {
    hide NameOf;
    var all := [m] + more;
    NamesCons(m, more);
    assert all[0] == m && forall i :: 0 <= i < |more| ==> more[i] == all[i + 1];
    forall i | 0 <= i < |more|
      ensures NameOf(more[i].header) != NameOf(m.header)
    {
      assert NameOf(all[0].header) != NameOf(all[i + 1].header);
    }
  }

  // ----- the recogniser

  /** The gunzipped stream and how much of it has been expanded. */
  class Reader {
    const stream: seq<byte>
    var expanded: nat

    constructor (stream: seq<byte>)
      ensures this.stream == stream && expanded == 0
    {
      this.stream, expanded := stream, 0;
    }

    ghost predicate Valid()
      reads this
    {
      expanded <= |stream|
    }

    /** `read_bounded`: at most one byte past the bound is ever asked for; none is an error. */
    method ReadBounded(size: nat) returns (block: Option<seq<byte>>)
      requires Valid() && expanded <= MAX_ARCHIVE
      modifies this
      ensures Valid() && expanded <= MAX_ARCHIVE + 1 && old(expanded) <= expanded
      ensures block.Some? <==> expanded <= MAX_ARCHIVE
      ensures block.Some? ==> block.value == stream[old(expanded)..expanded]
                              && |block.value| == Min(size, |stream| - old(expanded))
      ensures block.None? ==> |stream| > MAX_ARCHIVE && size > MAX_ARCHIVE - old(expanded)
    {
      var ask := Min(size, MAX_ARCHIVE - expanded + 1);
      var got := Min(ask, |stream| - expanded);
      var data := stream[expanded..expanded + got];
      expanded := expanded + got;
      if expanded > MAX_ARCHIVE {
        return None;
      }
      block := Some(data);
    }
  }

  /** The header checks of `preflight_ustar`, in its order. */
  method CheckHeader(header: seq<byte>, names: set<seq<byte>>) returns (ok: bool)
    requires |header| == BLOCK
    ensures ok <==> IsHeader(header) && NameOf(header) !in names
  {
    if !(header[156] == 0x30 || header[156] == 0) || header[257..265] != USTAR_MAGIC
       || !AllZero(header[157..257]) || !AllZero(header[345..500]) {
      return false;
    }
    var name := NameOf(header);
    if name !in MEMBERS || header[..100] != name + Zeros(100 - |name|) {
      return false;
    }
    if name in names {
      return false;
    }
    if Octal(header[148..156]) != Some(Sum(header[..148]) + 8 * 32 + Sum(header[156..])) {
      return false;
    }
    if Octal(header[124..136]).None? {
      return false;
    }
    var mode := Octal(header[100..108]);
    if mode.None? || mode.value / 512 % 8 != 0 {
      return false;
    }
    ok := true;
  }

  /** After a zero block: a second one, then zeros to the end. */
  method CheckEnd(reader: Reader) returns (ok: bool)
    requires reader.Valid() && reader.expanded <= MAX_ARCHIVE
    modifies reader
    ensures reader.Valid() && reader.expanded <= MAX_ARCHIVE + 1
    ensures ok <==> |reader.stream| <= MAX_ARCHIVE && |reader.stream| - old(reader.expanded) >= BLOCK
                    && AllZero(reader.stream[old(reader.expanded)..])
  {
    var second := reader.ReadBounded(BLOCK);
    if second.None? {
      return false;
    }
    if second.value != Zeros(BLOCK) {
      SecondIsNotZero(reader.stream, old(reader.expanded), second.value);
      return false;
    }
    ghost var from := old(reader.expanded);
    while true
      invariant reader.Valid() && reader.expanded <= MAX_ARCHIVE && from + BLOCK <= reader.expanded
      invariant AllZero(reader.stream[from..reader.expanded])
      decreases |reader.stream| - reader.expanded
    {
      ghost var at := reader.expanded;
      var padding := reader.ReadBounded(READ);
      if padding.None? {
        return false;
      }
      if padding.value == [] {
        assert reader.stream[from..] == reader.stream[from..at];
        return true;
      }
      if !AllZero(padding.value) {
        var i :| 0 <= i < |padding.value| && padding.value[i] != 0;
        assert reader.stream[from..][at - from + i] != 0;
        return false;
      }
      assert reader.stream[from..reader.expanded] == reader.stream[from..at] + padding.value;
    }
  }

  lemma SecondIsNotZero(stream: seq<byte>, from: nat, block: seq<byte>)
    requires from <= |stream| && |block| == Min(BLOCK, |stream| - from) && block == stream[from..from + |block|]
    requires block != Zeros(BLOCK)
    ensures |stream| - from < BLOCK || !AllZero(stream[from..])
  {
    assert |block| == BLOCK ==> forall i :: 0 <= i < BLOCK ==> block[i] == stream[from..][i];
  }

  /** The inner loop over one member's padded body. */
  method SkipBody(reader: Reader, size: nat) returns (ok: bool)
    requires reader.Valid() && reader.expanded <= MAX_ARCHIVE && size <= MAX_ARCHIVE - reader.expanded
    modifies reader
    ensures reader.Valid() && reader.expanded <= MAX_ARCHIVE
    ensures ok <==> old(reader.expanded) + size <= |reader.stream|
    ensures ok ==> reader.expanded == old(reader.expanded) + size
  {
    var remaining := size;
    while remaining > 0
      invariant reader.Valid() && 0 <= remaining <= size && reader.expanded == old(reader.expanded) + (size - remaining)
    {
      var block := reader.ReadBounded(Min(remaining, READ));
      if block == Some([]) {
        return false;
      }
      remaining := remaining - |block.value|;
    }
    ok := true;
  }

  /** `preflight_ustar`: accepts exactly the archives, ends on every stream,
      and expands at most one byte past the bound. */
  method Preflight(reader: Reader) returns (ok: bool)
    requires reader.expanded == 0
    modifies reader
    ensures reader.expanded <= MAX_ARCHIVE + 1 && reader.expanded <= |reader.stream|
    ensures ok <==> exists members, zeros: nat :: IsArchive(reader.stream, members, zeros)
  {
    hide IsHeader, NameOf, IsArchive, PaddedSize, AllZero, Accepts;
    var stream := reader.stream;
    ArchivesAreAccepted(stream);
    var names: set<seq<byte>> := {};
    assert stream[0..] == stream;
    while true
      invariant reader.Valid() && reader.expanded <= MAX_ARCHIVE
      invariant Accepts(stream[reader.expanded..], names) <==> Accepts(stream, {})
      decreases |stream| - reader.expanded
    {
      var at := reader.expanded;
      var read := reader.ReadBounded(BLOCK);
      if read.None? {
        return false;
      }
      var header := read.value;
      AcceptsStep(stream[at..], names);
      if |header| != BLOCK {
        return false;
      }
      assert stream[at..][..BLOCK] == header;
      if AllZero(header) {
        ok := CheckEnd(reader);
        ZeroTail(stream, at);
        ok := ok && names == MEMBERS;
        return;
      }
      var fine := CheckHeader(header, names);
      if !fine {
        return false;
      }
      var size := PaddedSize(header);
      if size > MAX_ARCHIVE - reader.expanded {
        return false;
      }
      names := names + {NameOf(header)};
      fine := SkipBody(reader, size);
      if !fine {
        return false;
      }
      assert stream[at..][BLOCK + size..] == stream[reader.expanded..];
    }
  }

  /** One turn of the reading. */
  lemma AcceptsStep(rest: seq<byte>, names: set<seq<byte>>)
    ensures |rest| < BLOCK ==> !Accepts(rest, names)
    ensures |rest| >= BLOCK && AllZero(rest[..BLOCK]) ==>
              (Accepts(rest, names) <==> |rest| >= 2 * BLOCK && AllZero(rest) && names == MEMBERS)
    ensures |rest| >= BLOCK && !AllZero(rest[..BLOCK]) ==>
              (Accepts(rest, names) <==>
               && IsHeader(rest[..BLOCK]) && NameOf(rest[..BLOCK]) !in names
                && BLOCK + PaddedSize(rest[..BLOCK]) <= |rest|
               && Accepts(rest[BLOCK + PaddedSize(rest[..BLOCK])..], names + {NameOf(rest[..BLOCK])}))
  {
    hide IsHeader, NameOf, PaddedSize, AllZero;
  }

  lemma ZeroTail(stream: seq<byte>, at: nat)
    requires at + BLOCK <= |stream| && AllZero(stream[at..][..BLOCK])
    ensures AllZero(stream[at..]) <==> AllZero(stream[at + BLOCK..])
  {
    var t := stream[at..];
    assert stream[at + BLOCK..] == t[BLOCK..];
    assert forall i :: 0 <= i < |t| ==> t[i] == if i < BLOCK then t[..BLOCK][i] else t[BLOCK..][i - BLOCK];
    assert forall i :: 0 <= i < |t[BLOCK..]| ==> t[BLOCK..][i] == t[i + BLOCK];
  }

  lemma ArchivesAreAccepted(stream: seq<byte>)
    ensures (exists members, zeros: nat :: IsArchive(stream, members, zeros)) <==>
            |stream| <= MAX_ARCHIVE && Accepts(stream, {})
  {
    hide Accepts, Laid, AllValid, DistinctNames, Names;
    if |stream| <= MAX_ARCHIVE && Accepts(stream, {}) {
      var members, zeros := AcceptedIsLaid(stream, {});
      assert Names(members) + {} == Names(members);
      assert IsArchive(stream, members, zeros);
    }
    if members, zeros: nat :| IsArchive(stream, members, zeros) {
      assert Names(members) + {} == Names(members);
      LaidIsAccepted(stream, {}, members, zeros);
    }
  }

  /** An archive has one reading: five members, in one order, and one run of zeros. */
  lemma {:induction false} ReadingIsUnique(stream: seq<byte>, a: seq<Member>, y: nat, b: seq<Member>, z: nat)
    requires AllValid(a) && AllValid(b) && y >= BLOCK && z >= BLOCK
    requires stream == Laid(a) + Zeros(y) && stream == Laid(b) + Zeros(z)
    ensures a == b && y == z
    decreases |a|
  {
    hide IsHeader, PaddedSize;
    if a == [] && b == [] {
    } else if a == [] {
      FrontIsHeader(stream, b, z);
    } else if b == [] {
      FrontIsHeader(stream, a, y);
    } else {
      FrontIsHeader(stream, a, y);
      FrontIsHeader(stream, b, z);
      var end := BLOCK + PaddedSize(a[0].header);
      ReadingIsUnique(stream[end..], a[1..], y, b[1..], z);
    }
  }

  lemma HeaderShape(header: seq<byte>)
    requires IsHeader(header)
    ensures |header| == BLOCK
  {}

  lemma FrontIsHeader(stream: seq<byte>, members: seq<Member>, zeros: nat)
    requires AllValid(members) && members != [] && stream == Laid(members) + Zeros(zeros)
    ensures IsHeader(members[0].header)
    ensures var h := members[0].header;
            && BLOCK + PaddedSize(h) <= |stream| && stream[..BLOCK] == h && !AllZero(stream[..BLOCK])
            && stream[BLOCK..BLOCK + PaddedSize(h)] == members[0].body
            && stream[BLOCK + PaddedSize(h)..] == Laid(members[1..]) + Zeros(zeros)
  {
    hide PaddedSize, IsHeader;
    var m := members[0];
    assert m.Valid();
    HeaderIsNotZero(m.header);
    HeaderShape(m.header);
    assert stream == m.header + m.body + (Laid(members[1..]) + Zeros(zeros));
  }
}
