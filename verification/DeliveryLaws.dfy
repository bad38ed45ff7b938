/** What a body's consumer can rely on, over every run of polls. */
module DeliveryLaws {
  import opened Common
  import opened PayloadChecks
  import opened Delivery

  function Payload(events: seq<SourcePoll>): seq<byte>
  {
    if events == [] then [] else (if events[0].Chunk? then events[0].bytes else []) + Payload(events[1..])
  }

  lemma {:induction false} PayloadConcat(a: seq<SourcePoll>, b: seq<SourcePoll>)
    ensures Payload(a + b) == Payload(a) + Payload(b)
  {
    if a == [] {
      assert a + b == b;
    } else {
      PayloadConcat(a[1..], b);
      assert (a + b)[1..] == a[1..] + b && (a + b)[0] == a[0];
      var head := if a[0].Chunk? then a[0].bytes else [];
      assert head + (Payload(a[1..]) + Payload(b)) == (head + Payload(a[1..])) + Payload(b);
    }
  }

  lemma PayloadCons(a: seq<SourcePoll>)
    requires a != []
    ensures |Payload(a)| >= if a[0].Chunk? then |a[0].bytes| else 0
  {}

  function ItemOf(p: Poll): seq<byte> { if p.Item? then p.bytes else [] }

  // ----- what every poll keeps

  /** Nothing was asked of any hash, so no payload makes a difference. */
  lemma InactiveIgnoresPayload(b: Body, p: seq<byte>, q: seq<byte>)
    requires !b.Active()
    ensures ResultsOf(b.policy, b.hash, p) == ResultsOf(b.policy, b.hash, q)
    ensures forall i :: 0 <= i < 5 ==> Agrees(b.policy, b.hash, p, i) && Agrees(b.policy, b.hash, q, i)
  {
    AllByIndex();
    forall i | 0 <= i < 5
      ensures b.policy.requirements[i].None?
    {
      assert !b.policy.Requests(ALL[i]);
    }
    assert b.policy.measurement.Some? ==> !b.policy.Requests(b.policy.measurement.value);
  }

  /** `taken` is what the source has given, `out` what has been released; `whole` of the events taken make up `out`. */
  ghost predicate BodyInv(b: Body, taken: seq<SourcePoll>, out: seq<byte>, whole: nat)
  {
    && b.Valid()
    && whole <= |taken| && out == Payload(taken[..whole]) && b.progress.released == |out|
    && match b.state
       case Reading =>
         && Broken !in taken
         && b.progress.received == |Payload(taken)| <= U64_MAX
         && (b.length.Some? ==> b.progress.received <= b.length.value)
         && Payload(taken) == out + (if b.pending.Some? then b.pending.value else [])
         && (b.pending.Some? && !b.Active() ==> b.offset == 0)
         && b.fed.value == (if b.Active()
                            then out + (if b.pending.Some? then b.pending.value[..b.offset] else []) else [])
         && b.progress.hashed == |b.fed.value|
       case Complete(outcome) =>
         && b.source == [] && Broken !in taken
         && out == Payload(taken) && b.progress.received == |out|
         && (b.length.Some? ==> |out| == b.length.value)
         && (forall i :: 0 <= i < 5 ==> Agrees(b.policy, b.hash, out, i))
         && outcome == ResultsOf(b.policy, b.hash, out)
       case Failed => true
  }

  ghost predicate SameSetting(b: Body, c: Body)
  {
    (c.policy, c.hash, c.length, c.source) == (b.policy, b.hash, b.length, b.source)
  }

  lemma ReleaseKeeps(b: Body, taken: seq<SourcePoll>, out: seq<byte>, whole: nat)
    requires BodyInv(b, taken, out, whole) && b.state == Reading && b.pending.Some?
    ensures var (c, p) := Release(b);
            BodyInv(c, taken, out + ItemOf(p), if p.Item? then |taken| else whole) && SameSetting(b, c)
  {
    hide InOrder, Payload, Agrees, ResultsOf;
    var (c, p) := Release(b);
    var chunk := b.pending.value;
    assert taken[..|taken|] == taken;
    assert c.Active() == b.Active();
    if b.Active() {
      assert chunk[..b.offset] + chunk[b.offset..c.offset] == chunk[..c.offset];
      assert out + chunk[..b.offset] + chunk[b.offset..c.offset] == out + chunk[..c.offset];
      if p.Item? { assert chunk[..c.offset] == chunk; }
    }
    assert (out + chunk) + [] == out + chunk;
  }

  lemma AdmitKeeps(b: Body, taken: seq<SourcePoll>, out: seq<byte>, whole: nat, chunk: seq<byte>)
    requires BodyInv(b, taken, out, whole) && b.state == Reading && b.pending == None
    ensures var (c, p) := Admit(b, chunk);
            BodyInv(c, taken + [Chunk(chunk)], out + ItemOf(p), if p.Item? then |taken| + 1 else whole)
            && SameSetting(b, c)
  {
    hide InOrder, Release;
    var next := taken + [Chunk(chunk)];
    ChunkTaken(taken, chunk, whole);
    assert out + [] == out;
    var received := b.progress.received + |chunk|;
    if received <= U64_MAX && (b.length.Some? ==> received <= b.length.value) && chunk != [] {
      var c := b.(progress := b.progress.(received := received)).(pending := Some(chunk), offset := 0);
      AdmittedInv(b, taken, out, whole, chunk);
      ReleaseKeeps(c, next, out, whole);
    }
  }

  lemma ChunkTaken(taken: seq<SourcePoll>, chunk: seq<byte>, whole: nat)
    requires whole <= |taken|
    ensures Payload(taken + [Chunk(chunk)]) == Payload(taken) + chunk
    ensures (taken + [Chunk(chunk)])[..whole] == taken[..whole]
  {
    PayloadConcat(taken, [Chunk(chunk)]);
    assert Payload([Chunk(chunk)]) == chunk;
  }

  lemma OtherTaken(taken: seq<SourcePoll>, e: SourcePoll)
    requires !e.Chunk?
    ensures Payload(taken + [e]) == Payload(taken)
  {
    PayloadConcat(taken, [e]);
    assert Payload([e]) == [];
  }

  lemma AdmittedInv(b: Body, taken: seq<SourcePoll>, out: seq<byte>, whole: nat, chunk: seq<byte>)
    requires BodyInv(b, taken, out, whole) && b.state == Reading && b.pending == None && chunk != []
    requires b.progress.received + |chunk| <= U64_MAX
    requires (b.length.Some? ==> b.progress.received + |chunk| <= b.length.value)
    ensures BodyInv(b.(progress := b.progress.(received := b.progress.received + |chunk|))
                      .(pending := Some(chunk), offset := 0),
                    taken + [Chunk(chunk)], out, whole)
  {
    hide InOrder;
    var c := b.(progress := b.progress.(received := b.progress.received + |chunk|))
             .(pending := Some(chunk), offset := 0);
    ChunkTaken(taken, chunk, whole);
    assert c.Active() == b.Active();
    assert chunk[..0] == [] && out + [] == out;
  }

  lemma ConcludeKeeps(b: Body, taken: seq<SourcePoll>, out: seq<byte>, whole: nat)
    requires BodyInv(b, taken, out, whole) && b.state == Reading && b.pending == None && b.source == []
    ensures BodyInv(Conclude(b).0, taken, out, whole) && !Conclude(b).1.Item? && SameSetting(b, Conclude(b).0)
  {
    hide InOrder;
    assert out + [] == out;
    if !b.Active() { InactiveIgnoresPayload(b, b.fed.value, out); }
  }

  function Taking(b: Body): seq<SourcePoll>
    requires b.Valid()
  {
    if b.state == Reading && !b.yielding && b.pending == None && b.source != [] then [b.source[0]] else []
  }

  /** Every poll releases the next whole chunk or nothing, hashes only what it has taken, and completes only at a
      clean end with the exact length and every digest right for the whole payload. */
  lemma PollKeeps(b: Body, taken: seq<SourcePoll>, out: seq<byte>, whole: nat)
    requires BodyInv(b, taken, out, whole)
    ensures var (c, p) := PollOf(b); var next := taken + Taking(b);
            && next + c.source == taken + b.source && c.source == b.source[|Taking(b)|..]
            && BodyInv(c, next, out + ItemOf(p), if p.Item? then |next| else whole)
            && (c.policy, c.hash, c.length) == (b.policy, b.hash, b.length)
  {
    hide InOrder, Release, Admit, Conclude, Payload, Agrees, ResultsOf;
    assert out + [] == out && taken + [] == taken && taken[..|taken|] == taken;
    if b.state == Reading && !b.yielding {
      if b.pending.Some? {
        ReleaseKeeps(b, taken, out, whole);
      } else if b.source == [] {
        ConcludeKeeps(b, taken, out, whole);
      } else {
        assert taken + b.source == (taken + [b.source[0]]) + b.source[1..];
        var c := b.(source := b.source[1..]);
        assert c.Active() == b.Active();
        assert BodyInv(c, taken, out, whole);
        assert (taken + [b.source[0]])[..whole] == taken[..whole];
        if b.source[0].Chunk? {
          AdmitKeeps(c, taken, out, whole, b.source[0].bytes);
        } else {
          OtherTaken(taken, b.source[0]);
        }
      }
    }
  }

  // ----- any number of polls

  function After(b: Body, n: nat): (c: Body)
    requires b.Valid()
    ensures c.Valid()
  {
    if n == 0 then b else PollValid(After(b, n - 1)); PollOf(After(b, n - 1)).0
  }

  lemma PollValid(b: Body)
    requires b.Valid()
    ensures PollOf(b).0.Valid()
  {}

  function Released(b: Body, n: nat): seq<byte>
    requires b.Valid()
  {
    if n == 0 then [] else Released(b, n - 1) + ItemOf(PollOf(After(b, n - 1)).1)
  }

  /** In every reachable state: the released bytes are whole chunks from the front of the source, in order. */
  lemma {:induction false} ReachableBody(policy: Policy, hash: Hash, length: Option<nat>, source: seq<SourcePoll>,
                                         n: nat)
    returns (taken: seq<SourcePoll>, whole: nat)
    requires InOrder(policy.requirements)
    ensures var b := Start(policy, hash, length, source);
            && taken + After(b, n).source == source
            && BodyInv(After(b, n), taken, Released(b, n), whole)
            && (After(b, n).policy, After(b, n).hash, After(b, n).length) == (policy, hash, length)
  {
    hide InOrder, PollOf, BodyInv;
    var b := Start(policy, hash, length, source);
    if n == 0 {
      taken, whole := [], 0;
      StartInv(policy, hash, length, source);
    } else {
      taken, whole := ReachableBody(policy, hash, length, source, n - 1);
      var c := After(b, n - 1);
      PollKeeps(c, taken, Released(b, n - 1), whole);
      if PollOf(c).1.Item? { whole := |taken + Taking(c)|; }
      taken := taken + Taking(c);
    }
  }

  lemma StartInv(policy: Policy, hash: Hash, length: Option<nat>, source: seq<SourcePoll>)
    requires InOrder(policy.requirements)
    ensures BodyInv(Start(policy, hash, length, source), [], [], 0)
    ensures [] + source == source
  {
    hide InOrder;
  }

  /** Completion means the source ended cleanly and everything it gave was released, counted and checked. */
  lemma CompletionIsEarned(policy: Policy, hash: Hash, length: Option<nat>, source: seq<SourcePoll>, n: nat)
    requires InOrder(policy.requirements)
    requires After(Start(policy, hash, length, source), n).state.Complete?
    ensures var b := Start(policy, hash, length, source); var c := After(b, n);
            && Broken !in source && Released(b, n) == Payload(source)
            && c.progress.received == c.progress.released == |Payload(source)|
            && (length.Some? ==> |Payload(source)| == length.value)
            && (forall i :: 0 <= i < 5 ==> Agrees(policy, hash, Payload(source), i))
            && c.state.outcome == ResultsOf(policy, hash, Payload(source)) && policy.SatisfiedBy(c.state.outcome)
  {
    hide InOrder, PollOf, After, Released;
    var taken, whole := ReachableBody(policy, hash, length, source, n);
    assert taken + [] == taken;
    ResultsSatisfy(policy, hash, Payload(source));
  }

  /** Once terminal, a body stays as it is and gives nothing more, however often it is polled. */
  lemma {:induction false} TerminalIsFinal(b: Body, n: nat, k: nat)
    requires b.Valid() && After(b, n).state != Reading
    ensures After(b, n + k) == After(b, n) && Released(b, n + k) == Released(b, n)
    ensures k > 0 ==> PollOf(After(b, n + k - 1)).1 == End
  {
    hide PollOf;
    if k > 0 {
      TerminalIsFinal(b, n, k - 1);
      TerminalPoll(After(b, n));
      assert Released(b, n) + [] == Released(b, n);
    }
  }

  lemma TerminalPoll(b: Body)
    requires b.Valid() && b.state != Reading
    ensures PollOf(b) == (b, End)
  {}

  // ----- how many polls

  function Slices(n: nat): nat { (n + HASH_SLICE - 1) / HASH_SLICE }

  /** The polls one event takes: its hash slices, or one release, and a turn to yield. */
  function Cost(e: SourcePoll, active: bool): nat
  {
    if e.Chunk? && e.bytes != [] then (if active then Slices(|e.bytes|) else 1) + 1 else 1
  }

  function Costs(source: seq<SourcePoll>, active: bool): nat
  {
    if source == [] then 0 else Cost(source[0], active) + Costs(source[1..], active)
  }

  function PollsLeft(b: Body): nat
    requires b.Valid()
  {
    if b.state != Reading then 0
    else (if b.yielding then 1 else 0)
         + (if b.pending.Some? then (if b.Active() then Slices(|b.pending.value| - b.offset) else 1) + 1 else 0)
         + Costs(b.source, b.Active()) + 1
  }

  lemma SliceDrops(n: nat)
    requires n > 0
    ensures Slices(n) == 1 + Slices(n - Min(n, HASH_SLICE)) && Slices(0) == 0
  {}

  /** Each poll of a body still reading brings its end one nearer; only a failure brings it there at once. */
  lemma PollsCountDown(b: Body)
    requires b.Valid() && b.state == Reading && (b.yielding ==> b.pending == None)
    ensures PollOf(b).0.Valid() && PollsLeft(PollOf(b).0) < PollsLeft(b)
    ensures PollOf(b).0.yielding ==> PollOf(b).0.pending == None
    ensures PollOf(b).0.state != Failed ==> PollsLeft(PollOf(b).0) == PollsLeft(b) - 1
    ensures PollOf(b).0.state.Complete? ==> PollsLeft(b) == 1
    ensures PollOf(b).1.Error? <==> PollOf(b).0.state == Failed
  {
    hide InOrder, Slices, Agrees, ResultsOf, FirstMismatch;
    var c := PollOf(b).0;
    assert c.Active() == b.Active();
    SlicesOfNothing();
    if !b.yielding {
      if b.pending.Some? {
        SliceDrops(|b.pending.value| - b.offset);
      } else if b.source != [] && b.source[0].Chunk? && b.source[0].bytes != [] {
        SliceDrops(|b.source[0].bytes|);
      }
    }
  }

  lemma SlicesOfNothing()
    ensures Slices(0) == 0
  {}

  // ----- how it ends

  /** Polling until the body is terminal: the polls taken, the bytes released, the last answer and the last state. */
  datatype Run = Run(polls: nat, out: seq<byte>, last: Poll, body: Body)

  predicate Ready(b: Body) { b.Valid() && (b.yielding ==> b.pending == None) }

  function Drive(b: Body): (r: Run)
    requires Ready(b) && b.state == Reading
    ensures r.body.state != Reading
    decreases PollsLeft(b)
  {
    PollsCountDown(b);
    var (c, p) := PollOf(b);
    if c.state != Reading then Run(1, ItemOf(p), p, c)
    else
      var rest := Drive(c);
      Run(rest.polls + 1, ItemOf(p) + rest.out, rest.last, rest.body)
  }

  /** What a clean end of `payload` gives. */
  function Verdict(policy: Policy, hash: Hash, length: Option<nat>, payload: seq<byte>, active: bool): Poll
  {
    var progress := Progress(|payload|, |payload|, if active then |payload| else 0);
    if length.Some? && |payload| != length.value then Error(WrongLength(length.value, |payload|), progress)
    else if forall i :: 0 <= i < 5 ==> Agrees(policy, hash, payload, i) then End
    else Error(DigestMismatch(FirstMismatch(policy, hash, payload)), progress)
  }

  ghost predicate Fits(length: Option<nat>, n: nat)
  {
    n <= U64_MAX && (length.Some? ==> n <= length.value)
  }

  lemma {:induction false} DriveToVerdict(b: Body, taken: seq<SourcePoll>, out: seq<byte>, whole: nat)
    requires BodyInv(b, taken, out, whole) && Ready(b) && b.state == Reading
    requires Broken !in b.source && Fits(b.length, |Payload(taken + b.source)|)
    ensures var payload := Payload(taken + b.source);
            && out + Drive(b).out == payload
            && Drive(b).last == Verdict(b.policy, b.hash, b.length, payload, b.Active())
            && Drive(b).polls == PollsLeft(b)
    decreases PollsLeft(b)
  {
    hide InOrder, Slices, Costs, Verdict, Agrees, FirstMismatch, ResultsOf, PollOf, Drive, BodyInv, Payload;
    var (c, p) := PollOf(b);
    DriveStep(b);
    BodyInvValid(b, taken, out, whole);
    var next := taken + Taking(b);
    var whole' := if p.Item? then |next| else whole;
    PollsCountDown(b);
    PollKeeps(b, taken, out, whole);
    if c.state == Reading {
      DriveToVerdict(c, next, out + ItemOf(p), whole');
      assert c.Active() == b.Active();
      assert (out + ItemOf(p)) + Drive(c).out == out + (ItemOf(p) + Drive(c).out);
    } else {
      EndsHere(b, taken, out, whole);
    }
  }

  lemma DriveStep(b: Body)
    requires Ready(b) && b.state == Reading
    ensures var (c, p) := PollOf(b);
            && Ready(c)
            && Drive(b) == if c.state != Reading then Run(1, ItemOf(p), p, c)
                           else Run(Drive(c).polls + 1, ItemOf(p) + Drive(c).out, Drive(c).last, Drive(c).body)
  {
    hide PollOf;
    PollsCountDown(b);
  }

  lemma BodyInvValid(b: Body, taken: seq<SourcePoll>, out: seq<byte>, whole: nat)
    requires BodyInv(b, taken, out, whole)
    ensures b.Valid()
  {}

  lemma EndsHere(b: Body, taken: seq<SourcePoll>, out: seq<byte>, whole: nat)
    requires BodyInv(b, taken, out, whole) && Ready(b) && b.state == Reading && PollOf(b).0.state != Reading
    requires Broken !in b.source && Fits(b.length, |Payload(taken + b.source)|)
    ensures b.source == [] && b.pending == None && !b.yielding
    ensures PollOf(b).1 == Verdict(b.policy, b.hash, b.length, out, b.Active())
    ensures out == Payload(taken + b.source) && PollsLeft(b) == 1 && !PollOf(b).1.Item?
  {
    hide InOrder, Slices;
    if b.source != [] && b.pending == None && !b.yielding {
      PayloadConcat(taken, b.source);
    } else if b.source == [] {
      assert taken + [] == taken && out + [] == out;
      if !b.Active() { InactiveIgnoresPayload(b, b.fed.value, out); }
    }
  }

  /** However a payload is cut into chunks, and whatever waits lie between: the released bytes, the verdict and
      its counters are those of the payload; and the polls are those the events cost, plus one for the end. */
  lemma CutsDoNotMatter(policy: Policy, hash: Hash, length: Option<nat>, source: seq<SourcePoll>)
    requires InOrder(policy.requirements) && Broken !in source && Fits(length, |Payload(source)|)
    ensures var b := Start(policy, hash, length, source); var r := Drive(b);
            && r.out == Payload(source)
            && r.last == Verdict(policy, hash, length, Payload(source), b.Active())
            && r.polls == Costs(source, b.Active()) + 1
  {
    hide InOrder, Verdict, Drive, Costs;
    var b := Start(policy, hash, length, source);
    StartInv(policy, hash, length, source);
    DriveToVerdict(b, [], [], 0);
    assert [] + Drive(b).out == Drive(b).out;
  }

  // ----- the ends that are not clean

  /** A source that breaks: everything before the break is released, and the failure is the source's. */
  lemma {:induction false} DriveToBreak(b: Body, taken: seq<SourcePoll>, out: seq<byte>, whole: nat, k: nat)
    requires BodyInv(b, taken, out, whole) && Ready(b) && b.state == Reading
    requires k < |b.source| && b.source[k] == Broken && Broken !in b.source[..k]
    requires Fits(b.length, |Payload(taken + b.source[..k])|)
    ensures var payload := Payload(taken + b.source[..k]); var n := |payload|;
            && out + Drive(b).out == payload
            && Drive(b).last == Error(SourceFailed, Progress(n, n, if b.Active() then n else 0))
    decreases PollsLeft(b)
  {
    hide InOrder, Slices, Costs, Agrees, FirstMismatch, ResultsOf, PollOf, Drive, BodyInv, Payload;
    var (c, p) := PollOf(b);
    DriveStep(b);
    BodyInvValid(b, taken, out, whole);
    PollsCountDown(b);
    PollKeeps(b, taken, out, whole);
    if c.state == Reading {
      var next := taken + Taking(b);
      TakesBeforeBreak(b, k);
      var j := k - |Taking(b)|;
      assert taken + b.source[..k] == next + c.source[..j];
      DriveToBreak(c, next, out + ItemOf(p), if p.Item? then |next| else whole, j);
      assert (out + ItemOf(p)) + Drive(c).out == out + (ItemOf(p) + Drive(c).out);
    } else {
      BreaksHere(b, taken, out, whole, k);
    }
  }

  lemma TakesBeforeBreak(b: Body, k: nat)
    requires b.Valid() && b.state == Reading && k < |b.source| && b.source[k] == Broken && PollOf(b).0.state == Reading
    ensures |Taking(b)| <= k
    ensures PollOf(b).0.source == b.source[|Taking(b)|..]
    ensures Broken !in b.source[..k] ==> Broken !in PollOf(b).0.source[..k - |Taking(b)|]
  {
    hide InOrder, Agrees;
    var c := PollOf(b).0;
    assert c.source == b.source[|Taking(b)|..];
    assert |Taking(b)| == 1 ==> k > 0;
    assert forall i :: 0 <= i < k - |Taking(b)| ==> c.source[i] == b.source[..k][i + |Taking(b)|];
  }

  lemma BreaksHere(b: Body, taken: seq<SourcePoll>, out: seq<byte>, whole: nat, k: nat)
    requires BodyInv(b, taken, out, whole) && Ready(b) && b.state == Reading && PollOf(b).0.state != Reading
    requires k < |b.source| && b.source[k] == Broken && Broken !in b.source[..k]
    requires Fits(b.length, |Payload(taken + b.source[..k])|)
    ensures k == 0 && PollOf(b).1 == Error(SourceFailed, Progress(|out|, |out|, if b.Active() then |out| else 0))
    ensures out == Payload(taken + b.source[..k])
  {
    hide InOrder, Agrees, ResultsOf, FirstMismatch, Payload, Conclude;
    assert out + [] == out;
    if k > 0 && b.pending == None && !b.yielding {
      PayloadConcat(taken, b.source[..k]);
      PayloadCons(b.source[..k]);
    } else if k == 0 {
      assert taken + b.source[..0] == taken;
    }
  }

  /** `q` and `r` are the chunk boundaries around `e`: the last one not past it, and the first one past it. */
  ghost predicate BoundariesAround(events: seq<SourcePoll>, e: nat, q: nat, r: nat)
  {
    exists j :: 0 < j <= |events| && |Payload(events[..j - 1])| == q <= e < |Payload(events[..j])| == r
  }

  /** How a payload that outruns its length ends: the first chunk past the length is counted in full, and what came
      before it is released. */
  function Crossing(e: nat, q: nat, r: nat, active: bool): Poll
  {
    Error(WrongLength(e, r), Progress(r, q, if active then q else 0))
  }

  /** A source that outruns the declared length: nothing past the length is released, and the whole failure is that
      of the chunk boundaries around the length. */
  lemma {:induction false} DriveTooLong(b: Body, taken: seq<SourcePoll>, out: seq<byte>, whole: nat)
    returns (q: nat, r: nat)
    requires BodyInv(b, taken, out, whole) && Ready(b) && b.state == Reading
    requires Broken !in b.source && b.length.Some? && b.length.value < |Payload(taken + b.source)| <= U64_MAX
    ensures var e := b.length.value;
            && BoundariesAround(taken + b.source, e, q, r) && Drive(b).last == Crossing(e, q, r, b.Active())
            && out + Drive(b).out <= Payload(taken + b.source) && |out + Drive(b).out| == q
    decreases PollsLeft(b)
  {
    hide InOrder, Slices, Costs, Agrees, FirstMismatch, ResultsOf;
    hide PollOf, Drive, BodyInv, Payload, BoundariesAround, Crossing;
    var (c, p) := PollOf(b);
    DriveStep(b);
    BodyInvValid(b, taken, out, whole);
    PollsCountDown(b);
    PollKeeps(b, taken, out, whole);
    if c.state == Reading {
      var next := taken + Taking(b);
      q, r := DriveTooLong(c, next, out + ItemOf(p), if p.Item? then |next| else whole);
      assert c.Active() == b.Active();
      assert (out + ItemOf(p)) + Drive(c).out == out + (ItemOf(p) + Drive(c).out);
    } else {
      q, r := CrossesHere(b, taken, out, whole);
      assert out + [] == out;
    }
  }

  lemma CrossesHere(b: Body, taken: seq<SourcePoll>, out: seq<byte>, whole: nat) returns (q: nat, r: nat)
    requires BodyInv(b, taken, out, whole) && Ready(b) && b.state == Reading && PollOf(b).0.state != Reading
    requires Broken !in b.source && b.length.Some? && b.length.value < |Payload(taken + b.source)| <= U64_MAX
    ensures BoundariesAround(taken + b.source, b.length.value, q, r) && q == |out|
    ensures PollOf(b).1 == Crossing(b.length.value, q, r, b.Active()) && PollOf(b).1.Error?
    ensures out <= Payload(taken + b.source)
  {
    hide InOrder, Agrees, ResultsOf, FirstMismatch, Payload, BoundariesAround, Release;
    assert out + [] == out;
    PayloadConcat(taken, b.source);
    EndsByCrossing(b, taken, out, whole);
    var chunk := b.source[0].bytes;
    var events, j := taken + b.source, |taken| + 1;
    ChunkTaken(taken, chunk, whole);
    assert events[..j - 1] == taken && events[..j] == taken + [Chunk(chunk)];
    BoundaryAt(events, b.length.value, j);
    q, r := |out|, |Payload(events[..j])|;
  }

  lemma BoundaryAt(events: seq<SourcePoll>, e: nat, j: nat)
    requires 0 < j <= |events| && |Payload(events[..j - 1])| <= e < |Payload(events[..j])|
    ensures BoundariesAround(events, e, |Payload(events[..j - 1])|, |Payload(events[..j])|)
  {}

  lemma EndsByCrossing(b: Body, taken: seq<SourcePoll>, out: seq<byte>, whole: nat)
    requires BodyInv(b, taken, out, whole) && Ready(b) && b.state == Reading && PollOf(b).0.state != Reading
    requires Broken !in b.source && b.length.Some? && b.length.value < |Payload(taken + b.source)| <= U64_MAX
    ensures !b.yielding && b.pending == None && b.source != [] && b.source[0].Chunk?
    ensures var received := b.progress.received + |b.source[0].bytes|;
            && b.length.value < received <= U64_MAX
            && PollOf(b).1 == Crossing(b.length.value, |out|, received, b.Active())
  {
    hide InOrder, Agrees, ResultsOf, FirstMismatch;
    PayloadConcat(taken, b.source);
    assert taken + [] == taken;
    if b.source != [] { assert b.source[0] in b.source; }
  }

  /** How a source ends, all of it: the end or the error, and the counters that come with an error. */
  function Ending(policy: Policy, hash: Hash, length: Option<nat>, source: seq<SourcePoll>): Poll
    requires InOrder(policy.requirements)
  {
    Drive(Start(policy, hash, length, source)).last
  }

  lemma TooLong(policy: Policy, hash: Hash, e: nat, source: seq<SourcePoll>) returns (q: nat, r: nat)
    requires InOrder(policy.requirements) && Broken !in source && e < |Payload(source)| <= U64_MAX
    ensures BoundariesAround(source, e, q, r)
    ensures Ending(policy, hash, Some(e), source) == Crossing(e, q, r, Start(policy, hash, Some(e), []).Active())
  {
    hide InOrder, Drive, BoundariesAround, Payload, Crossing;
    var b := Start(policy, hash, Some(e), source);
    StartInv(policy, hash, Some(e), source);
    q, r := DriveTooLong(b, [], [], 0);
    assert b.Active() == Start(policy, hash, Some(e), []).Active();
  }

  ghost predicate IsCut(source: seq<SourcePoll>, payload: seq<byte>)
  {
    Broken !in source && Payload(source) == payload
  }

  /** However the payload is cut, it ends alike. */
  ghost predicate EndsAlike(policy: Policy, hash: Hash, length: Option<nat>, payload: seq<byte>)
    requires InOrder(policy.requirements)
  {
    forall s, t :: IsCut(s, payload) && IsCut(t, payload) ==>
      Ending(policy, hash, length, s) == Ending(policy, hash, length, t)
  }

  /** The ending is independent of the cut exactly when the payload can be counted and either keeps within its length
      or is the one byte past a length of none. */
  lemma CutMattersPastTheLength(policy: Policy, hash: Hash, length: Option<nat>, payload: seq<byte>)
    requires InOrder(policy.requirements)
    ensures EndsAlike(policy, hash, length, payload)
       <==> && |payload| <= U64_MAX
            && (length == None || |payload| <= length.value || (length.value == 0 && |payload| == 1))
  {
    hide InOrder, Ending;
    if Fits(length, |payload|) || (length == Some(0) && |payload| == 1) {
      forall s, t | IsCut(s, payload) && IsCut(t, payload)
        ensures Ending(policy, hash, length, s) == Ending(policy, hash, length, t)
      {
        EndingOf(policy, hash, length, s);
        EndingOf(policy, hash, length, t);
      }
    } else {
      var s, t := [Chunk(payload)], [Chunk(payload[..1]), Chunk(payload[1..])];
      TwoCuts(payload, 1);
      if |payload| > U64_MAX {
        Uncountable(policy, hash, length, payload);
      } else {
        var qs, rs := TooLong(policy, hash, length.value, s);
        var qt, rt := TooLong(policy, hash, length.value, t);
        WholeBoundaries(payload, length.value, qs, rs);
        FirstByteBoundaries(payload, length.value, qt, rt);
      }
      assert IsCut(s, payload) && IsCut(t, payload);
      assert Ending(policy, hash, length, s) != Ending(policy, hash, length, t);
    }
  }

  lemma TwoCuts(payload: seq<byte>, n: nat)
    requires n <= |payload|
    ensures Payload([Chunk(payload)]) == Payload([Chunk(payload[..n]), Chunk(payload[n..])]) == payload
  {
    var t := [Chunk(payload[..n]), Chunk(payload[n..])];
    assert t[1..] == [Chunk(payload[n..])];
    assert Payload(t[1..]) == payload[n..];
  }

  lemma WholeBoundaries(payload: seq<byte>, e: nat, q: nat, r: nat)
    requires BoundariesAround([Chunk(payload)], e, q, r)
    ensures q == 0 && r == |payload|
  {
    var s := [Chunk(payload)];
    var j :| 0 < j <= |s| && |Payload(s[..j - 1])| == q <= e < |Payload(s[..j])| == r;
    assert s[..1] == s && s[..0] == [];
    TwoCuts(payload, 0);
  }

  lemma FirstByteBoundaries(payload: seq<byte>, e: nat, q: nat, r: nat)
    requires |payload| > 0 && BoundariesAround([Chunk(payload[..1]), Chunk(payload[1..])], e, q, r)
    ensures if e == 0 then r == 1 else q == 1
  {
    var s := [Chunk(payload[..1]), Chunk(payload[1..])];
    var j :| 0 < j <= |s| && |Payload(s[..j - 1])| == q <= e < |Payload(s[..j])| == r;
    assert s[..0] == [] && s[..1] == [Chunk(payload[..1])] && s[..2] == s;
    assert Payload(s[..1]) == payload[..1];
    TwoCuts(payload, 1);
  }

  /** More bytes than can be counted: the count at the failure shows where the last cut was. */
  lemma Uncountable(policy: Policy, hash: Hash, length: Option<nat>, payload: seq<byte>)
    requires InOrder(policy.requirements) && |payload| > U64_MAX
    ensures Ending(policy, hash, length, [Chunk(payload)]) == Error(Overflow, Progress(0, 0, 0))
    ensures Ending(policy, hash, length, [Chunk(payload[..1]), Chunk(payload[1..])])
         != Ending(policy, hash, length, [Chunk(payload)])
  {
    hide InOrder, Drive, Costs, Agrees, ResultsOf, FirstMismatch, Slices;
    var b, c := Start(policy, hash, length, [Chunk(payload)]),
                Start(policy, hash, length, [Chunk(payload[..1]), Chunk(payload[1..])]);
    DriveStep(b);
    DriveStep(c);
    var next := PollOf(c).0;
    assert next.progress.received == 1 && |payload[..1]| == 1;
    if next.state == Reading { CountNeverFalls(next); }
  }

  lemma {:induction false} CountNeverFalls(b: Body)
    requires Ready(b) && b.state == Reading
    ensures Drive(b).last.Error? ==> Drive(b).last.progress.received >= b.progress.received
    decreases PollsLeft(b)
  {
    hide InOrder, Drive, Costs, Agrees, ResultsOf, FirstMismatch, Slices, PollOf;
    DriveStep(b);
    PollsCountDown(b);
    CountRises(b);
    if PollOf(b).0.state == Reading { CountNeverFalls(PollOf(b).0); }
  }

  lemma CountRises(b: Body)
    requires b.Valid() && b.state == Reading
    ensures var (c, p) := PollOf(b);
            c.progress.received >= b.progress.received && (p.Error? ==> p.progress.received >= b.progress.received)
  {
    hide InOrder, Agrees, ResultsOf, FirstMismatch;
  }

  /** Within the length, or one byte past none, the ending is a function of the payload. */
  lemma EndingOf(policy: Policy, hash: Hash, length: Option<nat>, source: seq<SourcePoll>)
    requires InOrder(policy.requirements) && Broken !in source
    requires Fits(length, |Payload(source)|) || (length == Some(0) && |Payload(source)| == 1)
    ensures var active := Start(policy, hash, length, []).Active();
            Ending(policy, hash, length, source)
            == if Fits(length, |Payload(source)|) then Verdict(policy, hash, length, Payload(source), active)
               else Crossing(0, 0, 1, active)
  {
    hide InOrder, Drive, Payload, Costs, Crossing, Verdict;
    if Fits(length, |Payload(source)|) {
      CutsDoNotMatter(policy, hash, length, source);
      assert Start(policy, hash, length, source).Active() == Start(policy, hash, length, []).Active();
    } else {
      var q, r := TooLong(policy, hash, 0, source);
      BoundaryWithin(source, 0, q, r);
    }
  }

  lemma BoundaryWithin(source: seq<SourcePoll>, e: nat, q: nat, r: nat)
    requires BoundariesAround(source, e, q, r)
    ensures q <= e < r <= |Payload(source)|
  {
    var j :| 0 < j <= |source| && |Payload(source[..j - 1])| == q <= e < |Payload(source[..j])| == r;
    PayloadConcat(source[..j], source[j..]);
    assert source == source[..j] + source[j..];
  }

  /** The error alone, without its counters. */
  function ErrorOf(p: Poll): Option<BodyError> { if p.Error? then Some(p.error) else None }

  /** The error alone depends on the cut exactly when the payload outruns its length by two bytes or more. */
  lemma ErrorMattersFarPastTheLength(policy: Policy, hash: Hash, length: Option<nat>, payload: seq<byte>)
    requires InOrder(policy.requirements) && |payload| <= U64_MAX
    ensures (forall s, t :: IsCut(s, payload) && IsCut(t, payload) ==>
               ErrorOf(Ending(policy, hash, length, s)) == ErrorOf(Ending(policy, hash, length, t)))
       <==> length == None || |payload| <= length.value + 1
  {
    hide InOrder, Ending;
    if length == None || |payload| <= length.value + 1 {
      forall s, t | IsCut(s, payload) && IsCut(t, payload)
        ensures ErrorOf(Ending(policy, hash, length, s)) == ErrorOf(Ending(policy, hash, length, t))
      {
        JustPast(policy, hash, length, s);
        JustPast(policy, hash, length, t);
      }
    } else {
      var e := length.value;
      var s, t := [Chunk(payload)], [Chunk(payload[..e + 1]), Chunk(payload[e + 1..])];
      TwoCuts(payload, e + 1);
      var qs, rs := TooLong(policy, hash, e, s);
      var qt, rt := TooLong(policy, hash, e, t);
      WholeBoundaries(payload, e, qs, rs);
      CutBoundaries(payload, e, qt, rt);
      assert IsCut(s, payload) && IsCut(t, payload);
      assert ErrorOf(Ending(policy, hash, length, s)) != ErrorOf(Ending(policy, hash, length, t));
    }
  }

  lemma CutBoundaries(payload: seq<byte>, e: nat, q: nat, r: nat)
    requires e < |payload| && BoundariesAround([Chunk(payload[..e + 1]), Chunk(payload[e + 1..])], e, q, r)
    ensures r == e + 1
  {
    var s := [Chunk(payload[..e + 1]), Chunk(payload[e + 1..])];
    var j :| 0 < j <= |s| && |Payload(s[..j - 1])| == q <= e < |Payload(s[..j])| == r;
    assert s[..0] == [] && s[..1] == [Chunk(payload[..e + 1])] && s[..2] == s;
    assert Payload(s[..1]) == payload[..e + 1];
  }

  lemma JustPast(policy: Policy, hash: Hash, length: Option<nat>, source: seq<SourcePoll>)
    requires InOrder(policy.requirements) && Broken !in source && |Payload(source)| <= U64_MAX
    requires length == None || |Payload(source)| <= length.value + 1
    ensures ErrorOf(Ending(policy, hash, length, source))
         == if Fits(length, |Payload(source)|)
            then ErrorOf(Verdict(policy, hash, length, Payload(source), Start(policy, hash, length, []).Active()))
            else Some(WrongLength(length.value, length.value + 1))
  {
    hide InOrder, Ending, Payload, Verdict;
    if Fits(length, |Payload(source)|) {
      EndingOf(policy, hash, length, source);
    } else {
      var q, r := TooLong(policy, hash, length.value, source);
      BoundaryWithin(source, length.value, q, r);
    }
  }
}
