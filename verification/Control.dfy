/** The resume control kept inside the download's own file: `[data][trailer text][footer]`. */
module ControlFile {
  import opened Common
  import opened Text
  import opened Plan

  // ----- the recorded state and its text

  datatype Checksum = NoChecksum | Md5 | Sha1 | Sha256 | Sha512 | Blake3 {
    function Name(): string {
      match this
      case NoChecksum => "none"
      case Md5 => "md5"
      case Sha1 => "sha1"
      case Sha256 => "sha256"
      case Sha512 => "sha512"
      case Blake3 => "blake3"
    }
  }

  function AsciiLower(s: string): (t: string)
    ensures |t| == |s|
  {
    seq(|s|, i requires 0 <= i < |s| =>
          if 'A' <= s[i] <= 'Z' then (s[i] as int + 32) as char else s[i])
  }

  function ChecksumFrom(s: string): Option<Checksum>
  {
    var name := AsciiLower(s);
    if name == "none" then Some(NoChecksum)
    else if name == "md5" then Some(Md5)
    else if name == "sha1" then Some(Sha1)
    else if name == "sha256" then Some(Sha256)
    else if name == "sha512" then Some(Sha512)
    else if name == "blake3" then Some(Blake3)
    else None
  }

  lemma ChecksumNamed(c: Checksum)
    ensures ChecksumFrom(c.Name()) == Some(c)
  {
    assert AsciiLower(c.Name()) == c.Name();
  }

  /** A checksum is read from its name, and from nothing else, in either case of each letter. */
  lemma ChecksumIs(s: string, c: Checksum)
    ensures ChecksumFrom(s) == Some(c)
       <==> && |s| == |c.Name()|
            && forall i :: 0 <= i < |s| ==>
                 s[i] == c.Name()[i] || (c.Name()[i] >= 'a' && s[i] as int + 32 == c.Name()[i] as int)
  {
    var name := AsciiLower(s);
    assert ChecksumFrom(s) == Some(c) <==> name == c.Name();
  }

  /** What the trailer's lines say. */
  datatype Notes = Notes(validator: Option<string>, source: Option<string>,
                         checksum: Option<Checksum>, done: seq<ByteRange>)

  const NO_NOTES := Notes(None, None, None, [])

  datatype Control = Control(total: nat, notes: Notes)

  predicate IsKeyed(line: string)
  {
    "url " <= line || "tag " <= line || "algo " <= line
  }

  function DoneOf(line: string): seq<ByteRange>
  {
    var fields := Fields(line);
    if !IsKeyed(line) && |fields| >= 3 && fields[0] == "done"
       && ParseU64(fields[1]).Some? && ParseU64(fields[2]).Some?
    then [ByteRange(ParseU64(fields[1]).value, ParseU64(fields[2]).value)]
    else []
  }

  /** One iteration over the trailer's lines. */
  function Note(n: Notes, line: string): Notes
  {
    if "url " <= line then n.(source := Some(line[4..]))
    else if "tag " <= line then n.(validator := Some(line[4..]))
    else if "algo " <= line then n.(checksum := ChecksumFrom(line[5..]))
    else n.(done := n.done + DoneOf(line))
  }

  function NoteAll(n: Notes, lines: seq<string>): Notes
    decreases |lines|
  {
    if lines == [] then n else NoteAll(Note(n, lines[0]), lines[1..])
  }

  function NotesIn(text: string): Notes { NoteAll(NO_NOTES, Lines(text)) }

  // ----- the footer

  const FOOTER: nat := 32
  const MAGIC: seq<byte> := [0x58, 0x47, 0x45, 0x54, 0x43, 0x54, 0x4C, 0x31]

  function LittleEndian(n: nat, width: nat): (b: seq<byte>)
    ensures |b| == width
  {
    if width == 0 then [] else [n % 256] + LittleEndian(n / 256, width - 1)
  }

  function FromLittleEndian(b: seq<byte>): nat
  {
    if b == [] then 0 else b[0] + 256 * FromLittleEndian(b[1..])
  }

  function Pow256(w: nat): nat { if w == 0 then 1 else 256 * Pow256(w - 1) }

  lemma {:induction false} LittleEndianRoundTrip(n: nat, width: nat)
    requires n < Pow256(width)
    ensures FromLittleEndian(LittleEndian(n, width)) == n
  {
    if width > 0 {
      LittleEndianRoundTrip(n / 256, width - 1);
      assert LittleEndian(n, width)[1..] == LittleEndian(n / 256, width - 1);
    }
  }

  lemma U64RoundTrip(n: nat)
    requires n <= U64_MAX
    ensures FromLittleEndian(LittleEndian(n, 8)) == n
  {
    assert Pow256(8) == 256 * (256 * (256 * (256 * Pow256(4))));
    assert Pow256(4) == 256 * (256 * (256 * (256 * Pow256(0))));
    LittleEndianRoundTrip(n, 8);
  }

  /** `footer_bytes`: magic, total, trailer length, eight reserved zeros. */
  function FooterBytes(total: nat, trailer: nat): (f: seq<byte>)
    ensures |f| == FOOTER
  {
    MAGIC + LittleEndian(total, 8) + LittleEndian(trailer, 8) + Zeros(8)
  }

  predicate IsFooter(f: seq<byte>, total: nat, trailer: nat)
  {
    |f| == FOOTER && f[..8] == MAGIC && FromLittleEndian(f[8..16]) == total && FromLittleEndian(f[16..24]) == trailer
  }

  lemma FooterBytesAreFooter(total: nat, trailer: nat)
    requires total <= U64_MAX && trailer <= U64_MAX
    ensures IsFooter(FooterBytes(total, trailer), total, trailer)
  {
    hide LittleEndian, FromLittleEndian;
    U64RoundTrip(total);
    U64RoundTrip(trailer);
    var f := FooterBytes(total, trailer);
    assert f[8..16] == LittleEndian(total, 8) && f[16..24] == LittleEndian(trailer, 8);
  }

  // ----- reading

  /** What a file's bytes say, by the checks of `Control::read`. */
  function ReadOf(file: seq<byte>): (r: Option<Control>)
    ensures r.Some? ==> r.value.total + FOOTER <= |file|
  {
    if |file| < FOOTER then None
    else
      var footer := file[|file| - FOOTER..];
      var total := FromLittleEndian(footer[8..16]);
      var trailer := FromLittleEndian(footer[16..24]);
      if footer[..8] != MAGIC || total + trailer + FOOTER > U64_MAX || total + trailer + FOOTER != |file| then None
      else
        match Decode(file[total..total + trailer])
        case None => None
        case Some(text) => Some(Control(total, NotesIn(text)))
  }

  /** `Control::read`: the footer checks, then the loop over the lines. */
  method Read(file: seq<byte>) returns (r: Option<Control>)
    ensures r == ReadOf(file)
  {
    hide Decode, Lines, NoteAll, FromLittleEndian;
    if |file| < FOOTER {
      return None;
    }
    var footer := file[|file| - FOOTER..];
    if footer[0..8] != MAGIC {
      assert footer[0..8] == footer[..8];
      return None;
    }
    assert footer[0..8] == footer[..8];
    var total := FromLittleEndian(footer[8..16]);
    var trailer := FromLittleEndian(footer[16..24]);
    if total + trailer + FOOTER > U64_MAX || total + trailer + FOOTER != |file| {
      return None;
    }
    var decoded := Decode(file[total..total + trailer]);
    if decoded.None? {
      return None;
    }
    var notes := ReadLines(Lines(decoded.value));
    r := Some(Control(total, notes));
  }

  /** The loop of `Control::read` over the trailer's lines. */
  method ReadLines(lines: seq<string>) returns (notes: Notes)
    ensures notes == NoteAll(NO_NOTES, lines)
  {
    hide NoteAll, Fields, ParseU64, ChecksumFrom;
    var validator: Option<string>, source: Option<string>, checksum: Option<Checksum> := None, None, None;
    assert lines[0..] == lines;
    var done: seq<ByteRange> := [];
    for i := 0 to |lines|
      invariant NoteAll(Notes(validator, source, checksum, done), lines[i..]) == NoteAll(NO_NOTES, lines)
    {
      var line := lines[i];
      ghost var before := Notes(validator, source, checksum, done);
      NoteAllFrom(before, lines, i);
      if "url " <= line {
        source := Some(line[4..]);
      } else if "tag " <= line {
        validator := Some(line[4..]);
      } else if "algo " <= line {
        checksum := ChecksumFrom(line[5..]);
      } else {
        var fields := Fields(line);
        if |fields| >= 3 && fields[0] == "done" {
          var start, end := ParseU64(fields[1]), ParseU64(fields[2]);
          if start.Some? && end.Some? {
            done := done + [ByteRange(start.value, end.value)];
          }
        }
      }
      assert Notes(validator, source, checksum, done) == Note(before, line);
    }
    notes := Notes(validator, source, checksum, done);
    NothingToNote(notes, lines);
  }

  lemma NoteAllFrom(n: Notes, lines: seq<string>, i: nat)
    requires i < |lines|
    ensures NoteAll(n, lines[i..]) == NoteAll(Note(n, lines[i]), lines[i + 1..])
  {
    hide Note;
    assert lines[i..][0] == lines[i] && lines[i..][1..] == lines[i + 1..];
  }

  lemma NothingToNote(n: Notes, lines: seq<string>)
    ensures NoteAll(n, lines[|lines|..]) == n
  {}

  /** A file at rest: data, then exactly `text`, then a footer that adds up. */
  predicate AtRest(file: seq<byte>, total: nat, text: seq<byte>)
  {
    && |file| == total + |text| + FOOTER
    && |file| <= U64_MAX
    && file[total..total + |text|] == text
    && IsFooter(file[total + |text|..], total, |text|)
  }

  predicate Stable(file: seq<byte>, total: nat, text: string)
  {
    AtRest(file, total, Encode(text))
  }

  lemma StableReads(file: seq<byte>, total: nat, text: string)
    requires Stable(file, total, text)
    ensures ReadOf(file) == Some(Control(total, NotesIn(text)))
  {
    hide Encode, Decode, NotesIn, FromLittleEndian;
    DecodeEncode(text);
    assert file[|file| - FOOTER..] == file[total + |Encode(text)|..];
  }

  /** Reading succeeds on the files at rest and on no other. */
  lemma ReadableIsStable(file: seq<byte>) returns (text: string)
    requires ReadOf(file).Some?
    ensures Stable(file, ReadOf(file).value.total, text) && ReadOf(file).value.notes == NotesIn(text)
  {
    var footer := file[|file| - FOOTER..];
    var total := FromLittleEndian(footer[8..16]);
    var trailer := FromLittleEndian(footer[16..24]);
    text := Decode(file[total..total + trailer]).value;
    EncodeDecode(file[total..total + trailer], text);
  }

  // ----- writing

  /** Writing `data` at `at`; a write past the end leaves zeros between. */
  function Overlay(file: seq<byte>, at: nat, data: seq<byte>): (after: seq<byte>)
    ensures |after| == Max(if data == [] then |file| else at + |data|, |file|)
  {
    if data == [] then file
    else
      (if at <= |file| then file[..at] else file + Zeros(at - |file|))
      + data
      + (if at + |data| <= |file| then file[at + |data|..] else [])
  }

  lemma OverlayAt(file: seq<byte>, at: nat, data: seq<byte>)
    ensures |Overlay(file, at, data)| == Max(if data == [] then |file| else at + |data|, |file|)
    ensures forall x :: 0 <= x < |Overlay(file, at, data)| ==>
              Overlay(file, at, data)[x]
              == if at <= x < at + |data| then data[x - at] else if x < |file| then file[x] else 0
  {}

  lemma OverlayTail(file: seq<byte>, at: nat, data: seq<byte>)
    requires at <= |file| <= at + |data|
    ensures Overlay(file, at, data) == file[..at] + data
  {}

  /** One keyed line, when there is a value for it. */
  function KeyLine(key: string, value: Option<string>): string
  {
    if value.Some? then key + value.value + "\n" else ""
  }

  function Header(source: Option<string>, validator: Option<string>, checksum: Checksum): string
  {
    KeyLine("url ", source) + KeyLine("tag ", validator) + KeyLine("algo ", Some(checksum.Name()))
  }

  function DoneLine(r: ByteRange): string
  {
    "done " + Decimal(r.start) + " " + Decimal(r.end) + "\n"
  }

  /** One write's buffer: text from `line` on, then the footer that follows it. */
  function Stamped(total: nat, trailer: nat, line: seq<byte>): (b: seq<byte>)
    ensures |b| == |line| + FOOTER
  {
    line + FooterBytes(total, trailer + |line|)
  }

  /** The largest file the operating system's signed offsets allow. */
  const MAX_FILE: nat := 0x7FFF_FFFF_FFFF_FFFF

  /** What a write may leave when it is cut short: some prefix of the data. */
  ghost predicate TornWrite(before: seq<byte>, at: nat, data: seq<byte>, after: seq<byte>)
  {
    exists k: nat :: k <= |data| && after == Overlay(before, at, data[..k])
  }

  /** The file as an object several handles share. */
  class Disk {
    var bytes: seq<byte>

    constructor (bytes: seq<byte>)
      ensures this.bytes == bytes
    {
      this.bytes := bytes;
    }

    /** `write_all`: a failed write has still put down some prefix of the data. */
    method WriteAll(at: nat, data: seq<byte>, reached: nat) returns (ok: bool)
      modifies this
      ensures ok == (|data| <= reached && at + |data| <= MAX_FILE)
      ensures ok ==> bytes == Overlay(old(bytes), at, data)
      ensures !ok ==> TornWrite(old(bytes), at, data, bytes)
    {
      ok := |data| <= reached && at + |data| <= MAX_FILE;
      var k := if ok then |data| else if reached < |data| then reached else 0;
      assert ok ==> data[..k] == data;
      bytes := Overlay(bytes, at, data[..k]);
    }

    method SetLen(n: nat) returns (ok: bool)
      modifies this
      ensures ok == (n <= MAX_FILE)
      ensures bytes == if !ok then old(bytes)
                       else if n <= |old(bytes)| then old(bytes)[..n] else old(bytes) + Zeros(n - |old(bytes)|)
    {
      ok := n <= MAX_FILE;
      if ok {
        bytes := if n <= |bytes| then bytes[..n] else bytes + Zeros(n - |bytes|);
      }
    }
  }

  /** How an append goes: the seek fails; the write fails with part of the buffer down; the flush fails with any
      of it down; or nothing fails. */
  datatype Fate = Smooth | SeekFails | WriteFails(n: nat) | FlushFails(n: nat) {
    /** A write fails only while some of its buffer is still to be written. */
    predicate Stays(size: nat) { SeekFails? || (WriteFails? && n < size) }

    predicate IsSmooth(size: nat) { Smooth? || (WriteFails? && n >= size) }

    function Reached(size: nat): (k: nat)
      ensures k <= size && (Stays(size) ==> k < size || size == 0) && (IsSmooth(size) ==> k == size)
    {
      match this
      case Smooth => size
      case SeekFails => 0
      case WriteFails(n) => Min(n, size)
      case FlushFails(n) => Min(n, size)
    }
  }

  /** `Writer`: appends ranges to the trailer, restamping the footer. */
  class Writer {
    const disk: Disk
    const total: u64
    var trailer: nat

    constructor (disk: Disk, total: u64, trailer: nat)
      ensures this.disk == disk && this.total == total && this.trailer == trailer
    {
      this.disk, this.total, this.trailer := disk, total, trailer;
    }

    /** The file is at rest and holds `text`. */
    ghost predicate Holds(text: seq<byte>)
      reads this, disk
    {
      AtRest(disk.bytes, total, text) && trailer == |text|
    }

    /** `Writer::create`: truncate, allocate zeros, then seed the trailer in one write. */
    static method Create(disk: Disk, total: u64, validator: Option<string>, source: Option<string>, checksum: Checksum,
                         reached: nat) returns (w: Option<Writer>)
      modifies disk
      ensures var size := |Encode(Header(source, validator, checksum))| + FOOTER;
              w.Some? <==> size <= reached && total + size <= MAX_FILE
      ensures w.Some? ==> Created(w.value, disk, total, Encode(Header(source, validator, checksum)))
      ensures w.Some? ==> fresh(w.value)
      ensures w.None? ==> HalfCreated(disk, total, Encode(Header(source, validator, checksum)))
    {
      var text := HeaderText(validator, source, checksum);
      w := Seed(disk, total, Encode(text), reached);
    }

    static method HeaderText(validator: Option<string>, source: Option<string>, checksum: Checksum)
      returns (text: string)
      ensures text == Header(source, validator, checksum)
    {
      var url, tag := "", "";
      if source.Some? {
        url := "url " + source.value + "\n";
      }
      if validator.Some? {
        tag := "tag " + validator.value + "\n";
      }
      var algo := "algo " + checksum.Name() + "\n";
      text := url + tag + algo;
    }

    static ghost predicate Created(w: Writer, disk: Disk, total: u64, seed: seq<byte>)
      reads w, disk
    {
      w.disk == disk && w.total == total && w.Holds(seed) && disk.bytes[..total] == Zeros(total)
    }

    static ghost predicate HalfCreated(disk: Disk, total: u64, seed: seq<byte>)
      reads disk
    {
      disk.bytes == [] || TornWrite(Zeros(total), total, Stamped(total, 0, seed), disk.bytes)
    }

    static method Seed(disk: Disk, total: u64, seed: seq<byte>, reached: nat) returns (w: Option<Writer>)
      modifies disk
      ensures w.Some? <==> |seed| + FOOTER <= reached && total + |seed| + FOOTER <= MAX_FILE
      ensures w.Some? ==> Created(w.value, disk, total, seed)
      ensures w.Some? ==> fresh(w.value)
      ensures w.None? ==> HalfCreated(disk, total, seed)
    {
      disk.bytes := [];
      var ok := disk.SetLen(total);
      if !ok {
        return None;
      }
      assert disk.bytes == Zeros(total);
      ok := disk.WriteAll(total, Stamped(total, 0, seed), reached);
      if !ok {
        return None;
      }
      OverlayTail(Zeros(total), total, Stamped(total, 0, seed));
      StampedAtRest(Zeros(total), [], seed);
      assert Zeros(total) + [] == Zeros(total) && [] + seed == seed;
      var writer := new Writer(disk, total, |seed|);
      w := Some(writer);
    }

    /** `Writer::open`: the trailer is what the size leaves between data and footer. */
    static method Open(disk: Disk, total: u64) returns (w: Option<Writer>)
      ensures w.Some? <==> total + FOOTER <= |disk.bytes|
      ensures w.Some? ==> fresh(w.value) && w.value.disk == disk && w.value.total == total
      ensures forall text :: w.Some? && AtRest(disk.bytes, total, text) ==> w.value.Holds(text)
    {
      var size := |disk.bytes|;
      if size < total || size - total < FOOTER {
        return None;
      }
      var writer := new Writer(disk, total, size - total - FOOTER);
      w := Some(writer);
    }

    /** `Writer::append`: line and footer in one write over the old footer. The write may fail with some of the
        buffer accepted; the flush may fail with any of it down, and by then the writer has moved on. */
    method Append(range: ByteRange, fate: Fate, ghost text: seq<byte>) returns (ok: bool)
      modifies this`trailer, disk
      ensures var line := Encode(DoneLine(range)); var buffer := Stamped(total, old(trailer), line);
              && ok == (fate.IsSmooth(|buffer|) && total + old(trailer) + |buffer| <= MAX_FILE)
              && trailer == (if fate.Stays(|buffer|) then old(trailer) else old(trailer) + |line|)
              && (ok ==> disk.bytes == Overlay(old(disk.bytes), total + old(trailer), buffer))
              && (!ok ==> TornWrite(old(disk.bytes), total + old(trailer), buffer, disk.bytes))
              && (fate == SeekFails ==> disk.bytes == old(disk.bytes))
      ensures ok && old(Holds(text)) ==>
                Holds(text + Encode(DoneLine(range))) && disk.bytes[..total] == old(disk.bytes)[..total]
    {
      hide Encode, DoneLine, Stamped, Overlay, AtRest;
      var line := Encode(DoneLine(range));
      var buffer := Stamped(total, trailer, line);
      StampedLength(total, trailer, line);
      NoneOfIt(disk.bytes, total + trailer, buffer);
      if fate == SeekFails {
        return false;
      }
      if old(Holds(text)) { RoomFor(old(disk.bytes), total, text, line); }
      var down := disk.WriteAll(total + trailer, buffer, fate.Reached(|buffer|));
      if fate.Stays(|buffer|) {
        return false;
      }
      trailer := trailer + |line|;
      if down && !fate.IsSmooth(|buffer|) { AllOfIt(old(disk.bytes), total + old(trailer), buffer); }
      ok := down && fate.IsSmooth(|buffer|);
      if ok && old(Holds(text)) { AppendedAtRest(old(disk.bytes), total, text, line); }
    }

    /** `Writer::finish`: only the data region is left. */
    method Finish() returns (ok: bool)
      requires total <= |disk.bytes|
      modifies disk
      ensures ok == (total <= MAX_FILE)
      ensures ok ==> disk.bytes == old(disk.bytes)[..total]
    {
      ok := disk.SetLen(total);
    }
  }

  lemma StampedAtRest(data: seq<byte>, text: seq<byte>, line: seq<byte>)
    requires |data| + |text| + |line| + FOOTER <= U64_MAX
    ensures AtRest(data + text + Stamped(|data|, |text|, line), |data|, text + line)
  {
    var file := data + text + Stamped(|data|, |text|, line);
    FooterBytesAreFooter(|data|, |text| + |line|);
    assert file[|data|..|data| + |text| + |line|] == text + line;
    assert file[|data| + |text| + |line|..] == FooterBytes(|data|, |text| + |line|);
  }

  lemma StampedLength(total: nat, trailer: nat, line: seq<byte>)
    ensures |Stamped(total, trailer, line)| == |line| + FOOTER
  {}

  lemma NoneOfIt(file: seq<byte>, at: nat, data: seq<byte>)
    ensures TornWrite(file, at, data, file)
  {
    assert Overlay(file, at, data[..0]) == file;
  }

  lemma AllOfIt(file: seq<byte>, at: nat, data: seq<byte>)
    ensures TornWrite(file, at, data, Overlay(file, at, data))
  {
    assert data[..|data|] == data;
  }

  lemma RoomFor(file: seq<byte>, total: nat, text: seq<byte>, line: seq<byte>)
    requires AtRest(file, total, text)
    ensures |file| == total + |text| + FOOTER
  {}

  /** A complete append leaves the file at rest again, one line longer, its data untouched. */
  lemma AppendedAtRest(file: seq<byte>, total: nat, text: seq<byte>, line: seq<byte>)
    requires AtRest(file, total, text) && total + |text| + |line| + FOOTER <= U64_MAX
    ensures AtRest(Overlay(file, total + |text|, Stamped(total, |text|, line)), total, text + line)
    ensures Overlay(file, total + |text|, Stamped(total, |text|, line))[..total] == file[..total]
  {
    StampedAtRest(file[..total], text, line);
    OverlayTail(file, total + |text|, Stamped(total, |text|, line));
    assert file[..total + |text|] == file[..total] + text;
  }
}
