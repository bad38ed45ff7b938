/** Local checksum metadata: parsing its records and binding them to one source path; and the preflight that
    proposes them as requirements. */
module Proposals {
  import opened Common
  import opened Text
  import opened PayloadChecks

  const MAX_BYTES: nat := 65536
  const MAX_RECORDS: nat := 256
  const MAX_PATH_BYTES: nat := 4096

  // ----- digests

  function HexDigit(c: char): Option<nat>
  {
    if '0' <= c <= '9' then Some(c as int - '0' as int)
    else if 'a' <= c <= 'f' then Some(c as int - 'a' as int + 10)
    else if 'A' <= c <= 'F' then Some(c as int - 'A' as int + 10)
    else None
  }

  predicate IsHex(s: string) { forall i :: 0 <= i < |s| ==> HexDigit(s[i]).Some? }

  /** Two hexadecimal digits to a byte. */
  function HexBytes(s: string): (b: seq<byte>)
    requires IsHex(s) && |s| % 2 == 0
    ensures |b| == |s| / 2
  {
    if s == "" then []
    else [HexDigit(s[0]).value * 16 + HexDigit(s[1]).value] + HexBytes(s[2..])
  }

  /** `Digest::parse`: exactly the algorithm's width in hexadecimal. */
  function ParseDigest(a: Algorithm, value: string): Option<Digest>
  {
    if |Encode(value)| != a.ByteLen() * 2 then None
    else if IsHex(value) && |value| % 2 == 0 then Some(Digest(a, HexBytes(value)))
    else None
  }

  function ParseAlgorithm(name: string): Option<Algorithm>
  {
    if name == "md5" then Some(Md5)
    else if name == "sha1" then Some(Sha1)
    else if name == "sha256" then Some(Sha256)
    else if name == "sha512" then Some(Sha512)
    else if name == "blake3" then Some(Blake3)
    else None
  }

  /** `Digest::from_str`: `algorithm:hex`. */
  function ParseNamedDigest(value: string): Option<Digest>
  {
    var i := IndexOf(value, ':');
    if i == |value| then None
    else
      match ParseAlgorithm(value[..i])
      case None => None
      case Some(a) => ParseDigest(a, value[i + 1..])
  }

  // ----- records

  datatype Record = Record(digest: Digest, path: Option<string>)

  predicate IsPath(path: string)
  {
    path != "" && |Encode(path)| <= MAX_PATH_BYTES
    && forall i :: 0 <= i < |path| ==> !IsControl(path[i]) && path[i] != '\\'
  }

  function ParseToken(token: string, algorithm: Algorithm): Option<Digest>
  {
    if ':' in token then ParseNamedDigest(token) else ParseDigest(algorithm, token)
  }

  /** One nonempty line. */
  function ParseLine(line: string, algorithm: Algorithm): Option<Record>
  {
    var i := IndexOf(line, ' ');
    if i == |line| then
      match ParseToken(line, algorithm)
      case None => None
      case Some(digest) => Some(Record(digest, None))
    else
      var rest := line[i..];
      if !("  " <= rest) && !(" *" <= rest) then None
      else
        match ParseToken(line[..i], algorithm)
        case None => None
        case Some(digest) => if IsPath(rest[2..]) then Some(Record(digest, Some(rest[2..]))) else None
  }

  function Nonempty(lines: seq<string>): seq<string>
  {
    if lines == [] then [] else (if lines[0] == "" then [] else [lines[0]]) + Nonempty(lines[1..])
  }

  /** No two records give one path two digests of the same algorithm. */
  predicate Distinct(records: seq<Record>)
  {
    forall i, j :: 0 <= i < j < |records| ==>
      !(records[i].path == records[j].path && records[i].digest.algorithm == records[j].digest.algorithm)
  }

  predicate LabelledUnlessAlone(records: seq<Record>)
  {
    |records| == 1 || forall i :: 0 <= i < |records| ==> records[i].path.Some?
  }

  /** What a sidecar's text must be, and the records it then holds. */
  ghost predicate IsSidecar(text: string, algorithm: Algorithm, records: seq<Record>)
  {
    var lines := Nonempty(Lines(text));
    && |Encode(text)| <= MAX_BYTES
    && 0 < |records| == |lines| <= MAX_RECORDS
    && (forall i :: 0 <= i < |lines| ==> ParseLine(lines[i], algorithm) == Some(records[i]))
    && Distinct(records) && LabelledUnlessAlone(records)
  }

  method Clashes(records: seq<Record>, record: Record) returns (b: bool)
    ensures b <==> exists i :: 0 <= i < |records| && records[i].path == record.path
                               && records[i].digest.algorithm == record.digest.algorithm
  {
    for i := 0 to |records|
      invariant forall k :: 0 <= k < i ==>
                  !(records[k].path == record.path && records[k].digest.algorithm == record.digest.algorithm)
    {
      if records[i].path == record.path && records[i].digest.algorithm == record.digest.algorithm {
        return true;
      }
    }
    b := false;
  }

  /** `Parsed::parse`: line by line, refusing at the first fault. */
  method Parse(text: string, algorithm: Algorithm) returns (r: Option<seq<Record>>)
    ensures r.Some? ==> IsSidecar(text, algorithm, r.value)
    ensures r.None? ==> forall records: seq<Record> :: !IsSidecar(text, algorithm, records)
  {
    hide Encode, Lines, ParseLine, Nonempty;
    if |Encode(text)| > MAX_BYTES {
      return None;
    }
    var lines := Lines(text);
    var records: seq<Record> := [];
    ghost var all := Nonempty(lines);
    assert lines[0..] == lines;
    for k := 0 to |lines|
      invariant |records| <= MAX_RECORDS && |records| <= |all| && Nonempty(lines[k..]) == all[|records|..]
      invariant forall i :: 0 <= i < |records| ==> ParseLine(all[i], algorithm) == Some(records[i])
      invariant Distinct(records)
    {
      TakesLine(lines, all, k, |records|);
      if lines[k] == "" {
        continue;
      }
      if |records| == MAX_RECORDS {
        return None;
      }
      var record := ParseLine(lines[k], algorithm);
      if record.None? {
        return None;
      }
      var clash := Clashes(records, record.value);
      if clash {
        ClashRefutes(text, algorithm, records, record.value);
        return None;
      }
      records := records + [record.value];
    }
    NothingIsNonempty(lines);
    if records == [] {
      return None;
    }
    if |records| != 1 && exists i :: 0 <= i < |records| && records[i].path.None? {
      return None;
    }
    r := Some(records);
  }

  lemma NothingIsNonempty(lines: seq<string>)
    ensures Nonempty(lines[|lines|..]) == []
  {}

  /** One line more: an empty one is passed over, another is the next of those that count. */
  lemma TakesLine(lines: seq<string>, all: seq<string>, k: nat, n: nat)
    requires k < |lines| && n <= |all| && Nonempty(lines[k..]) == all[n..]
    ensures lines[k] == "" ==> Nonempty(lines[k + 1..]) == all[n..]
    ensures lines[k] != "" ==> n < |all| && all[n] == lines[k] && Nonempty(lines[k + 1..]) == all[n + 1..]
  {
    assert lines[k..][0] == lines[k] && lines[k..][1..] == lines[k + 1..];
    if lines[k] != "" {
      assert all[n..] == [lines[k]] + Nonempty(lines[k + 1..]);
      assert all[n..][0] == lines[k] && all[n..][1..] == all[n + 1..];
    }
  }

  lemma ClashRefutes(text: string, algorithm: Algorithm, records: seq<Record>, record: Record)
    requires var all := Nonempty(Lines(text));
             && |records| < |all| && ParseLine(all[|records|], algorithm) == Some(record)
             && forall i :: 0 <= i < |records| ==> ParseLine(all[i], algorithm) == Some(records[i])
    requires exists i :: 0 <= i < |records| && records[i].path == record.path
                         && records[i].digest.algorithm == record.digest.algorithm
    ensures forall other: seq<Record> :: !IsSidecar(text, algorithm, other)
  {
    hide Encode, Lines, ParseLine, Nonempty;
    var i :| 0 <= i < |records| && records[i].path == record.path
             && records[i].digest.algorithm == record.digest.algorithm;
  }

  predicate Binds(record: Record, path: string) { record.path == None || record.path == Some(path) }

  predicate OneDigestEach(digests: seq<Digest>)
  {
    forall i, j :: 0 <= i < j < |digests| ==> digests[i].algorithm != digests[j].algorithm
  }

  function Bound(records: seq<Record>, path: string): seq<Digest>
  {
    if records == [] then []
    else Bound(records[..|records| - 1], path)
         + if Binds(records[|records| - 1], path) then [records[|records| - 1].digest] else []
  }

  /** `Parsed::bind`. */
  method Bind(records: seq<Record>, path: string) returns (r: Option<seq<Digest>>)
    ensures r.Some? <==> exists i :: 0 <= i < |records| && Binds(records[i], path)
    ensures r.Some? ==> r.value == Bound(records, path)
    ensures r.Some? && Distinct(records) && LabelledUnlessAlone(records) ==> OneDigestEach(r.value)
  {
    var selected: seq<Digest> := [];
    for i := 0 to |records|
      invariant selected == Bound(records[..i], path)
      invariant selected != [] <==> exists k :: 0 <= k < i && Binds(records[k], path)
    {
      assert records[..i + 1][..i] == records[..i];
      if Binds(records[i], path) {
        selected := selected + [records[i].digest];
      }
    }
    assert records[..|records|] == records;
    if selected == [] {
      return None;
    }
    if Distinct(records) && LabelledUnlessAlone(records) {
      BoundOnce(records, path, |records|);
    }
    r := Some(selected);
  }

  /** Records of one sidecar never give one path two digests of an algorithm. */
  lemma {:induction false} BoundOnce(records: seq<Record>, path: string, n: nat)
    requires n <= |records| && Distinct(records) && LabelledUnlessAlone(records)
    ensures OneDigestEach(Bound(records[..n], path))
    ensures forall d :: d in Bound(records[..n], path) ==>
              exists i :: 0 <= i < n && Binds(records[i], path) && records[i].digest == d
  {
    if n > 0 {
      BoundOnce(records, path, n - 1);
      assert records[..n][..n - 1] == records[..n - 1];
      var front, last := Bound(records[..n - 1], path), records[n - 1];
      if Binds(last, path) {
        forall k | 0 <= k < |front|
          ensures front[k].algorithm != last.digest.algorithm
        {
          assert front[k] in front;
          var i :| 0 <= i < n - 1 && Binds(records[i], path) && records[i].digest == front[k];
          assert records[i].path == records[n - 1].path;
        }
      }
    }
  }

  // ----- proposing requirements

  datatype Proposal = Proposal(digest: Digest, origin: Provenance)

  /** `Checks::add`, by its effect on the proposals. */
  function Added(proposals: seq<Proposal>, p: Proposal): Option<seq<Proposal>>
  {
    if exists i :: 0 <= i < |proposals|
                   && proposals[i].digest.algorithm == p.digest.algorithm && proposals[i].digest != p.digest
    then None
    else if p in proposals then Some(proposals)
    else Some(proposals + [p])
  }

  /** The preflight's bounded list of proposals. */
  class Preflight {
    var proposals: seq<Proposal>

    constructor ()
      ensures proposals == []
    {
      proposals := [];
    }

    /** `Checks::add`. */
    method Add(digest: Digest, origin: Provenance) returns (ok: bool)
      modifies this
      ensures match Added(old(proposals), Proposal(digest, origin))
              case Some(after) => ok && proposals == after
              case None => !ok && proposals == old(proposals)
    {
      var known := false;
      for i := 0 to |proposals|
        invariant forall k :: 0 <= k < i ==>
                    !(proposals[k].digest.algorithm == digest.algorithm && proposals[k].digest != digest)
        invariant known <==> exists k :: 0 <= k < i && proposals[k] == Proposal(digest, origin)
        invariant proposals == old(proposals)
      {
        if proposals[i].digest.algorithm == digest.algorithm && proposals[i].digest != digest {
          return false;
        }
        if proposals[i].digest == digest && proposals[i].origin == origin {
          known := true;
        }
      }
      if !known {
        proposals := proposals + [Proposal(digest, origin)];
      }
      ok := true;
    }
  }

  /** The list and the requirement set hold the same digests with the same origins. */
  ghost predicate Simulates(proposals: seq<Proposal>, e: Entries)
  {
    forall d: Digest, o: Provenance ::
      Proposal(d, o) in proposals <==>
      && e[d.algorithm.Index()].Some? && e[d.algorithm.Index()].value.digest == d
      && o in e[d.algorithm.Index()].value.origins
  }

  /** At each proposal the preflight and the requirement set accept or reject together, and stay in step. */
  lemma ProposalsAgree(proposals: seq<Proposal>, e: Entries, p: Proposal)
    requires InOrder(e) && Simulates(proposals, e)
    ensures Added(proposals, p).Some? <==> Inserted(e, p.digest, p.origin).Ok?
    ensures Added(proposals, p).Some? ==> Simulates(Added(proposals, p).value, Inserted(e, p.digest, p.origin).value)
    ensures Added(proposals, p).Some? ==> InOrder(Inserted(e, p.digest, p.origin).value)
  {
    var i := p.digest.algorithm.Index();
    if e[i].Some? {
      var existing := e[i].value;
      var o :| o in existing.origins;
      SameSlot(existing.digest.algorithm, p.digest.algorithm);
      assert Proposal(existing.digest, o) in proposals;
    }
    if k :| 0 <= k < |proposals|
            && proposals[k].digest.algorithm == p.digest.algorithm && proposals[k].digest != p.digest {
      assert Proposal(proposals[k].digest, proposals[k].origin) in proposals;
    }
    if Added(proposals, p).Some? {
      var after := Inserted(e, p.digest, p.origin).value;
      forall d: Digest, o: Provenance
        ensures Proposal(d, o) in Added(proposals, p).value <==>
                after[d.algorithm.Index()].Some? && after[d.algorithm.Index()].value.digest == d
                && o in after[d.algorithm.Index()].value.origins
      {
        if d.algorithm.Index() == i { SameSlot(d.algorithm, p.digest.algorithm); }
        assert Proposal(d, o) in proposals <==>
               && e[d.algorithm.Index()].Some? && e[d.algorithm.Index()].value.digest == d
               && o in e[d.algorithm.Index()].value.origins;
      }
    }
  }

  lemma SameSlot(a: Algorithm, b: Algorithm)
    requires a.Index() == b.Index()
    ensures a == b
  {}

  /** Feeding a list of proposals to both: which were accepted, and what each ends up with. */
  function AddAll(proposals: seq<Proposal>, ps: seq<Proposal>): (seq<bool>, seq<Proposal>)
    decreases |ps|
  {
    if ps == [] then ([], proposals)
    else
      var added := Added(proposals, ps[0]);
      var (rest, end) := AddAll(if added.Some? then added.value else proposals, ps[1..]);
      ([added.Some?] + rest, end)
  }

  function InsertAll(e: Entries, ps: seq<Proposal>): (seq<bool>, Entries)
    decreases |ps|
  {
    if ps == [] then ([], e)
    else
      var inserted := Inserted(e, ps[0].digest, ps[0].origin);
      var (rest, end) := InsertAll(if inserted.Ok? then inserted.value else e, ps[1..]);
      ([inserted.Ok?] + rest, end)
  }

  lemma {:induction false} SequencesAgree(proposals: seq<Proposal>, e: Entries, ps: seq<Proposal>)
    requires InOrder(e) && Simulates(proposals, e)
    ensures AddAll(proposals, ps).0 == InsertAll(e, ps).0
    ensures Simulates(AddAll(proposals, ps).1, InsertAll(e, ps).1)
    decreases |ps|
  {
    hide InOrder, Simulates, Added, Inserted;
    if ps != [] {
      ProposalsAgree(proposals, e, ps[0]);
      var added, inserted := Added(proposals, ps[0]), Inserted(e, ps[0].digest, ps[0].origin);
      SequencesAgree(if added.Some? then added.value else proposals,
                     if inserted.Ok? then inserted.value else e, ps[1..]);
    }
  }

  /** On every sequence of proposals the preflight gives the core's answers, holds the core's requirements, and
      never more than fifteen of them. */
  lemma PreflightIsTheCore(ps: seq<Proposal>)
    ensures AddAll([], ps).0 == InsertAll(NO_ENTRIES, ps).0
    ensures Simulates(AddAll([], ps).1, InsertAll(NO_ENTRIES, ps).1)
    ensures |AddAll([], ps).1| <= 15
  {
    SequencesAgree([], NO_ENTRIES, ps);
    BoundedList([], ps);
    FewKeys(AddAll([], ps).1);
  }

  /** At most one entry for each algorithm and origin. */
  ghost predicate Keyed(proposals: seq<Proposal>)
  {
    forall i, j :: 0 <= i < j < |proposals| ==>
      proposals[i].digest.algorithm != proposals[j].digest.algorithm || proposals[i].origin != proposals[j].origin
  }

  lemma {:induction false} BoundedList(proposals: seq<Proposal>, ps: seq<Proposal>)
    requires Keyed(proposals)
    ensures Keyed(AddAll(proposals, ps).1)
    decreases |ps|
  {
    if ps != [] {
      var added := Added(proposals, ps[0]);
      assert added.Some? ==> Keyed(added.value);
      BoundedList(if added.Some? then added.value else proposals, ps[1..]);
    }
  }

  function Key(p: Proposal): nat
  {
    3 * p.digest.algorithm.Index() + match p.origin case Caller => 0 case Source => 1 case Sidecar => 2
  }

  lemma FewKeys(proposals: seq<Proposal>)
    requires Keyed(proposals)
    ensures |proposals| <= 15
  {
    var keys := seq(|proposals|, i requires 0 <= i < |proposals| => Key(proposals[i]));
    forall i, j | 0 <= i < j < |keys|
      ensures keys[i] != keys[j]
    {
      if proposals[i].digest.algorithm.Index() == proposals[j].digest.algorithm.Index() {
        SameSlot(proposals[i].digest.algorithm, proposals[j].digest.algorithm);
      }
    }
    Pigeonhole(keys, 15);
  }

  lemma {:induction false} Pigeonhole(keys: seq<nat>, n: nat)
    requires forall i :: 0 <= i < |keys| ==> keys[i] < n
    requires forall i, j :: 0 <= i < j < |keys| ==> keys[i] != keys[j]
    ensures |keys| <= n
  {
    assert keys != [] ==> keys[0] < n;
    if i :| 0 <= i < |keys| && keys[i] == n - 1 {
      Pigeonhole(keys[..i] + keys[i + 1..], n - 1);
    } else if n > 0 {
      Pigeonhole(keys, n - 1);
    }
  }

  /** A sidecar's digests for one path never conflict with each other. */
  lemma {:induction false} OneSidecarAgrees(digests: seq<Digest>, n: nat)
    requires OneDigestEach(digests) && n <= |digests|
    ensures var ps := seq(n, i requires 0 <= i < n => Proposal(digests[i], Sidecar));
            AddAll([], ps).1 == ps && |AddAll([], ps).0| == n && forall i :: 0 <= i < n ==> AddAll([], ps).0[i]
  {
    var ps := seq(n, i requires 0 <= i < n => Proposal(digests[i], Sidecar));
    AllDistinctAdd([], ps);
    assert [] + ps == ps;
  }

  lemma {:induction false} AllDistinctAdd(done: seq<Proposal>, ps: seq<Proposal>)
    requires forall i, j :: 0 <= i < j < |done + ps| ==>
               (done + ps)[i].digest.algorithm != (done + ps)[j].digest.algorithm
    ensures AddAll(done, ps).1 == done + ps
    ensures |AddAll(done, ps).0| == |ps| && forall i :: 0 <= i < |ps| ==> AddAll(done, ps).0[i]
    decreases |ps|
  {
    if ps == [] {
      assert done + ps == done;
    } else {
      assert forall i :: 0 <= i < |done| ==> (done + ps)[i] == done[i];
      assert (done + ps)[|done|] == ps[0];
      assert done + ps == (done + [ps[0]]) + ps[1..];
      AllDistinctAdd(done + [ps[0]], ps[1..]);
    }
  }
}
