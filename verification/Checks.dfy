/** Whole-payload checks: requirements, the hashers they share with an optional measurement, and the outcome. */
module PayloadChecks {
  import opened Common

  datatype Algorithm = Md5 | Sha1 | Sha256 | Sha512 | Blake3 {
    function Index(): (i: nat)
      ensures i < 5
    {
      match this
      case Md5 => 0
      case Sha1 => 1
      case Sha256 => 2
      case Sha512 => 3
      case Blake3 => 4
    }

    function ByteLen(): nat {
      match this
      case Md5 => 16
      case Sha1 => 20
      case Sha256 => 32
      case Blake3 => 32
      case Sha512 => 64
    }

    predicate IsStrong() { Sha256? || Sha512? || Blake3? }
  }

  const ALL: seq<Algorithm> := [Md5, Sha1, Sha256, Sha512, Blake3]

  lemma AllByIndex()
    ensures |ALL| == 5 && forall i :: 0 <= i < 5 ==> ALL[i].Index() == i
    ensures forall a: Algorithm :: ALL[a.Index()] == a
  {}

  datatype Digest = Digest(algorithm: Algorithm, bytes: seq<byte>)

  datatype Provenance = Caller | Source | Sidecar

  datatype Requirement = Requirement(digest: Digest, origins: set<Provenance>)

  datatype Conflict = Conflict(existing: Requirement, proposed: Digest, provenance: Provenance)

  /** A hash family: any function of the algorithm and the whole payload. */
  type Hash = (Algorithm, seq<byte>) -> seq<byte>

  function DigestOf(hash: Hash, a: Algorithm, payload: seq<byte>): Digest
  {
    Digest(a, hash(a, payload))
  }

  // ----- requirements

  /** One slot for each algorithm, in their order. */
  type Entries = e: seq<Option<Requirement>> | |e| == 5 witness [None, None, None, None, None]

  const NO_ENTRIES: Entries := [None, None, None, None, None]

  predicate InOrder(e: Entries)
  {
    forall i :: 0 <= i < 5 && e[i].Some? ==> e[i].value.digest.algorithm.Index() == i && e[i].value.origins != {}
  }

  /** The effect of one proposal. */
  function Inserted(e: Entries, digest: Digest, provenance: Provenance): Result<Entries, Conflict>
  {
    var i := digest.algorithm.Index();
    match e[i]
    case None => Ok(e[i := Some(Requirement(digest, {provenance}))])
    case Some(existing) =>
      if existing.digest != digest then Err(Conflict(existing, digest, provenance))
      else Ok(e[i := Some(Requirement(existing.digest, existing.origins + {provenance}))])
  }

  class Requirements {
    var entries: Entries

    constructor ()
      ensures entries == NO_ENTRIES
    {
      entries := NO_ENTRIES;
    }

    /** `Requirements::insert`: agreeing origins merge, disagreement changes nothing. */
    method Insert(digest: Digest, provenance: Provenance) returns (r: Result<(), Conflict>)
      modifies this
      ensures match Inserted(old(entries), digest, provenance)
              case Ok(after) => r.Ok? && entries == after
              case Err(conflict) => r == Err(conflict) && entries == old(entries)
      ensures old(InOrder(entries)) ==> InOrder(entries)
    {
      var i := digest.algorithm.Index();
      var entry := entries[i];
      if entry.Some? && entry.value.digest != digest {
        return Err(Conflict(entry.value, digest, provenance));
      }
      if entry.Some? {
        entries := entries[i := Some(Requirement(entry.value.digest, entry.value.origins + {provenance}))];
      } else {
        entries := entries[i := Some(Requirement(digest, {provenance}))];
      }
      r := Ok(());
    }
  }

  // ----- policy and outcome

  datatype Policy = Policy(requirements: Entries, measurement: Option<Algorithm>) {
    predicate Requests(a: Algorithm) { requirements[a.Index()].Some? || measurement == Some(a) }

    /** `prefix_algorithm`. */
    function PrefixAlgorithm(): Option<Algorithm> {
      if Requests(Sha256) then Some(Sha256)
      else if Requests(Sha512) then Some(Sha512)
      else if Requests(Blake3) then Some(Blake3)
      else None
    }

    /** `describes`: results may hold only what was configured. */
    predicate Describes(results: Outcome) {
      && (forall i :: 0 <= i < 5 && results.matched[i].Some? ==>
            requirements[results.matched[i].value.digest.algorithm.Index()] == results.matched[i])
      && match measurement
         case None => results.measured == None
         case Some(a) =>
           && results.measured.Some? && results.measured.value.algorithm == a
           && (results.matched[a.Index()].Some? ==> results.matched[a.Index()].value.digest == results.measured.value)
    }

    /** `satisfied_by`: the whole required set matched. */
    predicate SatisfiedBy(results: Outcome) {
      Describes(results) && requirements == results.matched
    }
  }

  datatype Outcome = Outcome(matched: Entries, measured: Option<Digest>) {
    function AnchorFor(a: Algorithm): Option<Digest> {
      if matched[a.Index()].Some? then Some(matched[a.Index()].value.digest)
      else if measured.Some? && measured.value.algorithm == a then measured
      else None
    }

    /** `strong_anchor`. */
    function StrongAnchor(): Option<Digest> {
      if AnchorFor(Sha256).Some? then AnchorFor(Sha256)
      else if AnchorFor(Sha512).Some? then AnchorFor(Sha512)
      else AnchorFor(Blake3)
    }
  }

  datatype Mismatch = Mismatch(requirement: Requirement, actual: Digest, results: Outcome)

  // ----- the running checks

  /** A hasher is the bytes fed to it so far. */
  datatype ActiveCheck = ActiveCheck(fed: seq<byte>, requirement: Option<Requirement>)

  type Hashers = h: seq<Option<ActiveCheck>> | |h| == 5 witness [None, None, None, None, None]

  /** The hashers a policy calls for, each fed `payload`. */
  function Fed(policy: Policy, payload: seq<byte>): Hashers
  {
    seq(5, i requires 0 <= i < 5 =>
          if policy.Requests(ALL[i]) then Some(ActiveCheck(payload, policy.requirements[i])) else None)
  }

  /** Whether a digest agrees with what was required of it. */
  predicate Agrees(policy: Policy, hash: Hash, payload: seq<byte>, i: nat)
    requires i < 5
  {
    policy.requirements[i].Some? ==> policy.requirements[i].value.digest == DigestOf(hash, ALL[i], payload)
  }

  class Checks {
    const hash: Hash
    const policy: Policy
    var hashers: Hashers

    /** `Requirements::start`: only the requested distinct hashers. */
    constructor (hash: Hash, policy: Policy)
      ensures this.hash == hash && this.policy == policy && hashers == Fed(policy, [])
    {
      this.hash, this.policy := hash, policy;
      hashers := Fed(policy, []);
    }

    /** `Checks::active`. */
    predicate Active()
      reads this
    {
      exists i :: 0 <= i < 5 && hashers[i].Some?
    }

    /** `Checks::update`: every active hasher takes the same slice. */
    method Update(slice: seq<byte>, ghost payload: seq<byte>)
      requires hashers == Fed(policy, payload)
      modifies this
      ensures hashers == Fed(policy, payload + slice)
    {
      var i := 0;
      while i < 5
        invariant 0 <= i <= 5
        invariant forall k :: 0 <= k < 5 ==> hashers[k] == Fed(policy, if k < i then payload + slice else payload)[k]
      {
        if hashers[i].Some? {
          hashers := hashers[i := Some(hashers[i].value.(fed := hashers[i].value.fed + slice))];
        }
        i := i + 1;
      }
    }

    /** `Checks::prefix_anchor`: the first strong state already kept, finalized on a copy. */
    method PrefixAnchor(ghost payload: seq<byte>) returns (anchor: Option<Digest>)
      requires hashers == Fed(policy, payload)
      ensures anchor == match policy.PrefixAlgorithm()
                        case None => None
                        case Some(a) => Some(DigestOf(hash, a, payload))
    {
      var i := 0;
      while i < 5
        invariant 0 <= i <= 5
        invariant forall k :: 0 <= k < i ==> !(ALL[k].IsStrong() && policy.Requests(ALL[k]))
      {
        if hashers[i].Some? && ALL[i].IsStrong() {
          assert i > 2 ==> !policy.Requests(ALL[2]);
          assert i > 3 ==> !policy.Requests(ALL[3]);
          return Some(DigestOf(hash, ALL[i], hashers[i].value.fed));
        }
        i := i + 1;
      }
      assert !policy.Requests(ALL[2]) && !policy.Requests(ALL[3]) && !policy.Requests(ALL[4]);
      anchor := None;
    }

    /** `Checks::finish`: every hash is finalized, even after a mismatch; the first mismatch is the one reported. */
    method Finish(ghost payload: seq<byte>) returns (r: Result<Outcome, Mismatch>)
      requires hashers == Fed(policy, payload) && InOrder(policy.requirements)
      ensures r.Ok? <==> forall i :: 0 <= i < 5 ==> Agrees(policy, hash, payload, i)
      ensures r.Ok? ==> r.value == ResultsOf(policy, hash, payload)
      ensures r.Err? ==> r.error.results == ResultsOf(policy, hash, payload)
      ensures r.Err? ==> var i := r.error.actual.algorithm.Index();
                         && policy.requirements[i] == Some(r.error.requirement)
                         && r.error.actual == DigestOf(hash, ALL[i], payload)
                         && !Agrees(policy, hash, payload, i)
                         && forall k :: 0 <= k < i ==> Agrees(policy, hash, payload, k)
    {
      hide Agrees, InOrder;
      var results := Outcome(NO_ENTRIES, None);
      var mismatch: Option<(Requirement, Digest)> := None;
      var i := 0;
      while i < 5
        invariant 0 <= i <= 5
        invariant forall k :: 0 <= k < 5 ==>
                    results.matched[k] == if k < i then ResultsOf(policy, hash, payload).matched[k] else None
        invariant results.measured == if policy.measurement.Some? && policy.measurement.value.Index() < i
                                      then ResultsOf(policy, hash, payload).measured else None
        invariant mismatch.None? <==> forall k :: 0 <= k < i ==> Agrees(policy, hash, payload, k)
        invariant mismatch.Some? ==> var k := mismatch.value.1.algorithm.Index();
                                     && k < i && policy.requirements[k] == Some(mismatch.value.0)
                                     && mismatch.value.1 == DigestOf(hash, ALL[k], payload)
                                     && !Agrees(policy, hash, payload, k)
                                     && forall j :: 0 <= j < k ==> Agrees(policy, hash, payload, j)
      {
        AllByIndex();
        AgreesAt(policy, hash, payload, i);
        if hashers[i].Some? {
          var ActiveCheck(fed, requirement) := hashers[i].value;
          var actual := DigestOf(hash, ALL[i], fed);
          if policy.measurement == Some(actual.algorithm) {
            results := results.(measured := Some(actual));
          }
          if requirement.Some? {
            if actual == requirement.value.digest {
              results := results.(matched := results.matched[i := requirement]);
            } else if mismatch.None? {
              mismatch := Some((requirement.value, actual));
            }
          }
        }
        i := i + 1;
      }
      if mismatch.Some? {
        r := Err(Mismatch(mismatch.value.0, mismatch.value.1, results));
      } else {
        r := Ok(results);
      }
    }
  }

  lemma AgreesAt(policy: Policy, hash: Hash, payload: seq<byte>, i: nat)
    requires i < 5
    ensures Agrees(policy, hash, payload, i)
       <==> policy.requirements[i].None? || policy.requirements[i].value.digest == DigestOf(hash, ALL[i], payload)
  {}

  /** What finishing reports on either path: the requirements that agree, and the measurement. */
  function ResultsOf(policy: Policy, hash: Hash, payload: seq<byte>): Outcome
  {
    Outcome(seq(5, i requires 0 <= i < 5 => if Agrees(policy, hash, payload, i) then policy.requirements[i] else None),
            match policy.measurement
            case None => None
            case Some(a) => Some(DigestOf(hash, a, payload)))
  }

  /** The results satisfy the policy exactly when every requirement agrees with the payload, and describe it always. */
  lemma ResultsSatisfy(policy: Policy, hash: Hash, payload: seq<byte>)
    requires InOrder(policy.requirements)
    ensures policy.Describes(ResultsOf(policy, hash, payload))
    ensures policy.SatisfiedBy(ResultsOf(policy, hash, payload))
       <==> forall i :: 0 <= i < 5 ==> Agrees(policy, hash, payload, i)
  {
    AllByIndex();
    var results := ResultsOf(policy, hash, payload);
    forall i | 0 <= i < 5
      ensures results.matched[i] == policy.requirements[i] <==> Agrees(policy, hash, payload, i)
    {}
  }

  /** When everything agrees, the anchor kept just before finishing is the one the outcome selects. */
  lemma AnchorsAgree(policy: Policy, hash: Hash, payload: seq<byte>)
    requires InOrder(policy.requirements) && forall i :: 0 <= i < 5 ==> Agrees(policy, hash, payload, i)
    ensures ResultsOf(policy, hash, payload).StrongAnchor()
         == match policy.PrefixAlgorithm()
            case None => None
            case Some(a) => Some(DigestOf(hash, a, payload))
  {
    AllByIndex();
    forall a: Algorithm
      ensures ResultsOf(policy, hash, payload).AnchorFor(a)
        == if policy.Requests(a) then Some(DigestOf(hash, a, payload)) else None
    {
      assert Agrees(policy, hash, payload, a.Index());
    }
  }

  /** The first strong algorithm asked for, in the algorithms' order. */
  lemma PrefixIsFirstStrong(policy: Policy, a: Algorithm)
    ensures policy.PrefixAlgorithm() == Some(a)
       <==> && a.IsStrong() && policy.Requests(a)
            && forall b: Algorithm :: b.IsStrong() && policy.Requests(b) ==> a.Index() <= b.Index()
  {
    assert forall b: Algorithm :: b.IsStrong() ==> b == Sha256 || b == Sha512 || b == Blake3;
  }

  /** A hash under which every requirement of `policy` is met, and `measured` is measured. */
  function HashFor(policy: Policy, measured: Option<Digest>): Hash
  {
    (a: Algorithm, payload: seq<byte>) =>
      if policy.requirements[a.Index()].Some? then policy.requirements[a.Index()].value.digest.bytes
      else if measured.Some? && measured.value.algorithm == a then measured.value.bytes else []
  }

  /** An outcome satisfies a policy exactly when some payload under some hash would have given it. */
  lemma SatisfiedIsRealised(policy: Policy, results: Outcome, payload: seq<byte>)
    requires InOrder(policy.requirements)
    ensures policy.SatisfiedBy(results)
       <==> exists hash :: && ResultsOf(policy, hash, payload) == results
                           && forall i :: 0 <= i < 5 ==> Agrees(policy, hash, payload, i)
  {
    AllByIndex();
    if policy.SatisfiedBy(results) {
      var hash := HashFor(policy, results.measured);
      forall i | 0 <= i < 5
        ensures Agrees(policy, hash, payload, i)
      {
        assert ALL[i].Index() == i;
      }
      assert ResultsOf(policy, hash, payload).matched == results.matched;
      assert ResultsOf(policy, hash, payload).measured == results.measured;
      assert ResultsOf(policy, hash, payload) == results;
    }
    if hash :| && ResultsOf(policy, hash, payload) == results
               && forall i :: 0 <= i < 5 ==> Agrees(policy, hash, payload, i) {
      ResultsSatisfy(policy, hash, payload);
    }
  }
}
