/** Planning a resource into chunks, and crediting each chunk with what an earlier run left on disk. */
module Plan {
  import opened Common

  type u32 = x: int | 0 <= x < 0x1_0000_0000
  type u64 = x: int | 0 <= x <= U64_MAX

  datatype ByteRange = ByteRange(start: u64, end: u64) {
    function Len(): nat { if start < end then end - start else 0 }
  }

  // ----- what a plan must be

  /** `ranges` are nonempty and follow each other from `start` to `end`. */
  ghost predicate Tiles(ranges: seq<ByteRange>, start: nat, end: nat)
  {
    && (forall i :: 0 <= i < |ranges| ==> ranges[i].start < ranges[i].end)
    && (forall i, j :: 0 <= i && j == i + 1 && j < |ranges| ==> ranges[i].end == ranges[j].start)
    && if ranges == [] then end <= start
       else ranges[0].start == start && ranges[|ranges| - 1].end == end
  }

  /** Sizes differ by at most one and never grow. */
  ghost predicate Balanced(ranges: seq<ByteRange>)
  {
    forall i, j :: 0 <= i <= j < |ranges| ==> ranges[j].Len() <= ranges[i].Len() <= ranges[j].Len() + 1
  }

  function PartCount(start: nat, end: nat, parts: nat): nat
  {
    if end <= start then 0 else Min(Max(parts, 1), end - start)
  }

  function Boundary(start: nat, length: nat, parts: nat, i: nat): nat
    requires parts > 0
  {
    start + i * (length / parts) + Min(i, length % parts)
  }

  /** The plan in closed form. */
  function PlanOf(start: u64, end: u64, parts: u32): (ranges: seq<ByteRange>)
    ensures |ranges| == PartCount(start, end, parts)
  {
    var n := PartCount(start, end, parts);
    seq(n, i requires 0 <= i < n =>
          BoundaryBounds(start, end, n, i);
          BoundaryBounds(start, end, n, i + 1);
          ByteRange(Boundary(start, end - start, n, i), Boundary(start, end - start, n, i + 1)))
  }

  lemma MulMonotone(a: nat, b: nat, k: nat)
    requires a <= b
    ensures a * k <= b * k
  {}

  lemma BoundaryBounds(start: u64, end: u64, n: nat, i: nat)
    requires start < end && 0 < n && i <= n
    ensures start <= Boundary(start, end - start, n, i) <= end
    ensures Boundary(start, end - start, n, n) == end
  {
    var length := end - start;
    MulMonotone(i, n, length / n);
    assert length == n * (length / n) + length % n;
  }

  /** Every plan tiles its range exactly, in chunks as even as possible, the larger ones first. */
  lemma PlanTilesEvenly(start: u64, end: u64, parts: u32)
    ensures Tiles(PlanOf(start, end, parts), start, end) && Balanced(PlanOf(start, end, parts))
  {
    hide PlanOf, PartCount, Tiles, Balanced;
    if start < end {
      var n := PartCount(start, end, parts);
      SomeParts(start, end, parts);
      PlanTiles(start, end, parts);
      forall i | 0 <= i < n
        ensures PlanOf(start, end, parts)[i].Len() == (end - start) / n + if i < (end - start) % n then 1 else 0
      {
        PlanSize(start, end, parts, n, i);
      }
      LargerFirst(PlanOf(start, end, parts), (end - start) / n, (end - start) % n);
    } else {
      NoPlan(start, end, parts);
    }
  }

  lemma NoPlan(start: u64, end: u64, parts: u32)
    requires end <= start
    ensures Tiles(PlanOf(start, end, parts), start, end) && Balanced(PlanOf(start, end, parts))
  {}

  lemma PlanSize(start: u64, end: u64, parts: u32, n: nat, i: nat)
    requires start < end && n == PartCount(start, end, parts) && i < n
    ensures PlanOf(start, end, parts)[i].Len() == (end - start) / n + if i < (end - start) % n then 1 else 0
  {
    hide Boundary, PartCount;
    BoundaryStep(start, end - start, n, i);
  }

  lemma SomeParts(start: u64, end: u64, parts: u32)
    requires start < end
    ensures 0 < PartCount(start, end, parts) <= end - start
  {}

  lemma PlanTiles(start: u64, end: u64, parts: u32)
    requires start < end
    ensures Tiles(PlanOf(start, end, parts), start, end)
  {
    hide Boundary;
    var n := PartCount(start, end, parts);
    QuotientIsPositive(end - start, n);
    BoundaryBounds(start, end, n, n);
    BoundaryStarts(start, end - start, n);
    forall i | 0 <= i < n
      ensures PlanOf(start, end, parts)[i].start < PlanOf(start, end, parts)[i].end
    {
      BoundaryStep(start, end - start, n, i);
    }
  }

  lemma LargerFirst(ranges: seq<ByteRange>, m: nat, j: nat)
    requires forall i :: 0 <= i < |ranges| ==> ranges[i].Len() == m + if i < j then 1 else 0
    ensures Balanced(ranges)
  {}

  /** As many chunks as asked for, and one when none is; fewer only when there are not that many bytes, and then every
      chunk is one byte. */
  lemma PartsAreHonoured(start: u64, end: u64, parts: u32)
    ensures var ranges := PlanOf(start, end, parts);
            && |ranges| <= (if parts == 0 then 1 else parts) && (ranges == [] <==> end <= start)
            && (start < end && |ranges| < parts ==> forall i :: 0 <= i < |ranges| ==> ranges[i].Len() == 1)
  {
    var n := PartCount(start, end, parts);
    var ranges := PlanOf(start, end, parts);
    if start < end && n < parts {
      forall i | 0 <= i < n
        ensures ranges[i].Len() == 1
      {
        OneEach(n);
        BoundaryStep(start, n, n, i);
      }
    }
  }

  lemma OneEach(n: nat)
    requires 0 < n
    ensures n / n == 1 && n % n == 0
  {}

  lemma QuotientIsPositive(length: nat, n: nat)
    requires 0 < n <= length
    ensures length / n >= 1
  {}

  lemma BoundaryStarts(start: nat, length: nat, n: nat)
    requires n > 0
    ensures Boundary(start, length, n, 0) == start
  {}

  lemma BoundaryStep(start: nat, length: nat, n: nat, i: nat)
    requires n > 0
    ensures Boundary(start, length, n, i + 1)
     == Boundary(start, length, n, i) + length / n + if i < length % n then 1 else 0
  {
    assert (i + 1) * (length / n) == i * (length / n) + length / n;
  }

  /** The plan is the only even tiling with that many chunks. */
  lemma EvenTilingIsThePlan(ranges: seq<ByteRange>, start: u64, end: u64, parts: u32)
    requires Tiles(ranges, start, end) && Balanced(ranges) && |ranges| == PartCount(start, end, parts)
    ensures ranges == PlanOf(start, end, parts)
  {
    hide Tiles, Balanced;
    var n := |ranges|;
    if n > 0 {
      var m, j := EvenShape(ranges);
      Starts(ranges, start, end, m, j);
      QuotientIs(end - start, n, m, j);
      forall i | 0 <= i < n
        ensures ranges[i] == PlanOf(start, end, parts)[i]
      {
        assert ranges[i].start == Boundary(start, end - start, n, i);
      }
    }
  }

  /** An even list of sizes is `j` sizes `m + 1`, then sizes `m`. */
  lemma EvenShape(ranges: seq<ByteRange>) returns (m: nat, j: nat)
    requires Balanced(ranges) && ranges != []
    ensures j < |ranges| && forall i :: 0 <= i < |ranges| ==> ranges[i].Len() == m + if i < j then 1 else 0
  {
    m, j := ranges[|ranges| - 1].Len(), 0;
    while ranges[j].Len() != m
      invariant j < |ranges|
      invariant forall i :: 0 <= i < j ==> ranges[i].Len() == m + 1
      decreases |ranges| - j
    {
      j := j + 1;
    }
  }

  /** The sizes fix the boundaries, and so the total length. */
  function EvenStart(start: nat, m: nat, j: nat, k: nat): nat { start + k * m + Min(k, j) }

  lemma EvenStartStep(start: nat, m: nat, j: nat, k: nat)
    ensures EvenStart(start, m, j, 0) == start
    ensures EvenStart(start, m, j, k + 1) == EvenStart(start, m, j, k) + m + if k < j then 1 else 0
  {
    assert (k + 1) * m == k * m + m;
  }

  lemma Starts(ranges: seq<ByteRange>, start: nat, end: nat, m: nat, j: nat)
    requires Tiles(ranges, start, end) && j < |ranges|
    requires forall i :: 0 <= i < |ranges| ==> ranges[i].Len() == m + if i < j then 1 else 0
    ensures end == start + |ranges| * m + j
    ensures forall k :: 0 <= k < |ranges| ==>
              ranges[k].start == start + k * m + Min(k, j) && ranges[k].end == start + (k + 1) * m + Min(k + 1, j)
  {
    hide EvenStart;
    var i := 0;
    while i < |ranges|
      invariant 0 <= i <= |ranges|
      invariant forall k :: 0 <= k < i ==>
                  ranges[k].start == EvenStart(start, m, j, k) && ranges[k].end == EvenStart(start, m, j, k + 1)
    {
      EvenStartStep(start, m, j, i);
      assert i > 0 ==> ranges[i - 1].end == ranges[i].start;
      i := i + 1;
    }
    EvenStartsAre(start, m, j);
    assert ranges[|ranges| - 1].end == EvenStart(start, m, j, |ranges| - 1 + 1);
  }

  lemma EvenStartsAre(start: nat, m: nat, j: nat)
    ensures forall k: nat :: EvenStart(start, m, j, k) == start + k * m + Min(k, j)
  {}

  lemma QuotientIs(a: nat, n: nat, q: nat, r: nat)
    requires n > 0 && a == n * q + r && r < n
    ensures a / n == q && a % n == r
  {
    var d := a / n - q;
    assert n * d == n * (a / n) - n * q;
    SmallMultiple(n, d, r - a % n);
  }

  lemma SmallMultiple(n: int, d: int, e: int)
    requires 0 < n && n * d == e && -n < e < n
    ensures d == 0
  {
    if d > 0 { MulMonotone(1, d, n); }
  }

  /** `plan_range`: the loop over `index`, in machine integers. */
  method PlanRange(start: u64, end: u64, parts: u32) returns (ranges: seq<ByteRange>)
    ensures ranges == PlanOf(start, end, parts)
  {
    var length: u64 := if end > start then end - start else 0;
    if length == 0 {
      return [];
    }
    var count: u64 := Min(Max(parts, 1), length);
    var base: u64 := length / count;
    var extra: u64 := length % count;
    ranges := [];
    var offset: u64 := start;
    for index := 0 to count
      invariant offset == Boundary(start, length, count, index)
      invariant ranges == PlanOf(start, end, parts)[..index]
    {
      BoundaryBounds(start, end, count, index + 1);
      assert (index + 1) * base == index * base + base;
      var size: u64 := base + if index < extra then 1 else 0;
      var chunk := ByteRange(offset, offset + size);
      assert chunk == PlanOf(start, end, parts)[index];
      ranges := ranges + [chunk];
      offset := offset + size;
    }
  }

  // ----- coverage

  ghost predicate Covered(ranges: seq<ByteRange>, x: nat)
  {
    exists r :: r in ranges && r.start <= x < r.end
  }

  ghost predicate SameCover(a: seq<ByteRange>, b: seq<ByteRange>)
  {
    forall x: nat :: Covered(a, x) <==> Covered(b, x)
  }

  /** Sorted, nonempty and with a gap between neighbours. */
  ghost predicate Separated(ranges: seq<ByteRange>)
  {
    && (forall i :: 0 <= i < |ranges| ==> ranges[i].start < ranges[i].end)
    && (forall i, j :: 0 <= i < j < |ranges| ==> ranges[i].end < ranges[j].start)
  }

  /** A cover has one separated list at most: merging has a single correct answer. */
  lemma {:induction false} SeparatedIsUnique(a: seq<ByteRange>, b: seq<ByteRange>)
    requires Separated(a) && Separated(b) && SameCover(a, b)
    ensures a == b
  {
    if a == [] && b == [] {
    } else if a == [] {
      CoversItsStart(b);
    } else if b == [] {
      CoversItsStart(a);
    } else {
      FirstStart(a, b);
      FirstStart(b, a);
      FirstEnd(a, b);
      FirstEnd(b, a);
      forall x: nat
        ensures Covered(a[1..], x) <==> Covered(b[1..], x)
      {
        TailCover(a, x);
        TailCover(b, x);
      }
      SeparatedIsUnique(a[1..], b[1..]);
    }
  }

  lemma CoversItsStart(a: seq<ByteRange>)
    requires Separated(a) && a != []
    ensures Covered(a, a[0].start)
  {
    assert a[0] in a;
  }

  lemma FirstStart(a: seq<ByteRange>, b: seq<ByteRange>)
    requires Separated(a) && Separated(b) && SameCover(a, b) && a != [] && b != []
    ensures a[0].start >= b[0].start
  {
    assert Covered(a, a[0].start);
    assert Covered(b, a[0].start);
  }

  lemma FirstEnd(a: seq<ByteRange>, b: seq<ByteRange>)
    requires Separated(a) && Separated(b) && SameCover(a, b) && a != [] && b != []
    requires a[0].start == b[0].start
    ensures a[0].end <= b[0].end
  {
    assert b[0].end < a[0].end ==> Covered(a, b[0].end);
    assert !Covered(b, b[0].end);
  }

  lemma TailCover(a: seq<ByteRange>, x: nat)
    requires Separated(a) && a != []
    ensures Covered(a[1..], x) <==> Covered(a, x) && x >= a[0].end
  {
    if Covered(a, x) && x >= a[0].end {
      var r :| r in a && r.start <= x < r.end;
      assert r in a[1..];
    }
    if Covered(a[1..], x) {
      var r :| r in a[1..] && r.start <= x < r.end;
      assert r in a;
    }
  }

  // ----- merging

  ghost predicate SortedByStart(ranges: seq<ByteRange>)
  {
    forall i, j :: 0 <= i <= j < |ranges| ==> ranges[i].start <= ranges[j].start
  }

  /** A stable insertion: the standard library's sort, by its effect. */
  function InsertByStart(r: ByteRange, sorted: seq<ByteRange>): (s: seq<ByteRange>)
    requires SortedByStart(sorted)
    ensures SortedByStart(s) && forall x :: x in s <==> x == r || x in sorted
  {
    if sorted == [] || r.start <= sorted[0].start then [r] + sorted
    else
      var rest := InsertByStart(r, sorted[1..]);
      assert forall x :: x in rest ==> x == r || x in sorted[1..];
      assert forall i :: 0 <= i < |rest| ==> rest[i] in rest;
      [sorted[0]] + rest
  }

  function SortByStart(ranges: seq<ByteRange>): (s: seq<ByteRange>)
    ensures SortedByStart(s) && forall x :: x in s <==> x in ranges
  {
    if ranges == [] then [] else InsertByStart(ranges[0], SortByStart(ranges[1..]))
  }

  /** Takes in the next range by start: it extends the last one or begins a new one. */
  function Absorb(merged: seq<ByteRange>, range: ByteRange): (after: seq<ByteRange>)
    ensures |after| > 0
  {
    if merged != [] && range.start <= merged[|merged| - 1].end then
      var last := merged[|merged| - 1];
      merged[|merged| - 1 := ByteRange(last.start, Max(last.end, range.end))]
    else merged + [range]
  }

  ghost predicate NoLater(merged: seq<ByteRange>, start: nat)
  {
    merged != [] ==> merged[|merged| - 1].start <= start
  }

  lemma NoLaterStill(merged: seq<ByteRange>, start: nat, later: nat)
    requires NoLater(merged, start) && start <= later
    ensures NoLater(merged, later)
  {}

  lemma AbsorbSeparates(merged: seq<ByteRange>, range: ByteRange)
    requires Separated(merged) && NoLater(merged, range.start) && range.start < range.end
    ensures Separated(Absorb(merged, range)) && NoLater(Absorb(merged, range), range.start)
  {}

  lemma AbsorbCovers(merged: seq<ByteRange>, range: ByteRange, x: nat)
    requires NoLater(merged, range.start) && range.start < range.end
    ensures Covered(Absorb(merged, range), x) <==> Covered(merged, x) || range.start <= x < range.end
  {
    var after := Absorb(merged, range);
    var joined := after[|after| - 1];
    assert joined in after;
    if Covered(merged, x) {
      var r :| r in merged && r.start <= x < r.end;
      var k :| 0 <= k < |merged| && merged[k] == r;
      assert if k < |merged| - 1 then after[k] == r else joined.start <= x < joined.end || r in after;
    }
    if merged != [] { assert merged[|merged| - 1] in merged; }
    if Covered(after, x) {
      var r :| r in after && r.start <= x < r.end;
      assert r == joined || r in merged;
    }
  }

  lemma AbsorbKeepsCover(merged: seq<ByteRange>, seen: seq<ByteRange>, range: ByteRange)
    requires SameCover(merged, seen) && NoLater(merged, range.start) && range.start < range.end
    ensures SameCover(Absorb(merged, range), seen + [range])
  {
    forall x: nat
      ensures Covered(Absorb(merged, range), x) <==> Covered(seen + [range], x)
    {
      AbsorbCovers(merged, range, x);
      CoverConcat([range], seen, x);
      CoverConcat(seen, [range], x);
      assert Covered(merged, x) <==> Covered(seen, x);
    }
  }

  /** `merge_ranges`. */
  method MergeRanges(ranges: seq<ByteRange>) returns (merged: seq<ByteRange>)
    requires forall r :: r in ranges ==> r.start < r.end
    ensures Separated(merged) && SameCover(merged, ranges)
  {
    hide Merges;
    var sorted := SortByStart(ranges);
    merged := [];
    NothingMerged(sorted);
    for i := 0 to |sorted|
      invariant Merges(merged, sorted, i)
    {
      var range := sorted[i];
      assert range in sorted;
      MergesNext(merged, sorted, i);
      if merged != [] && range.start <= merged[|merged| - 1].end {
        var last := merged[|merged| - 1];
        merged := merged[|merged| - 1 := ByteRange(last.start, Max(last.end, range.end))];
      } else {
        merged := merged + [range];
      }
    }
    SortedCover(merged, ranges, sorted);
  }

  /** The first `i` ranges by start are merged. */
  ghost predicate Merges(merged: seq<ByteRange>, sorted: seq<ByteRange>, i: nat)
    requires i <= |sorted|
  {
    Separated(merged) && SameCover(merged, sorted[..i]) && (i < |sorted| ==> NoLater(merged, sorted[i].start))
  }

  lemma NothingMerged(sorted: seq<ByteRange>)
    ensures Merges([], sorted, 0)
  {
    assert sorted[..0] == [];
  }

  lemma MergesNext(merged: seq<ByteRange>, sorted: seq<ByteRange>, i: nat)
    requires i < |sorted| && SortedByStart(sorted) && sorted[i].start < sorted[i].end && Merges(merged, sorted, i)
    ensures Merges(Absorb(merged, sorted[i]), sorted, i + 1)
  {
    hide SameCover, Separated, NoLater, Absorb;
    var range := sorted[i];
    AbsorbSeparates(merged, range);
    AbsorbKeepsCover(merged, sorted[..i], range);
    assert sorted[..i + 1] == sorted[..i] + [range];
    if i + 1 < |sorted| { NoLaterStill(Absorb(merged, range), range.start, sorted[i + 1].start); }
  }

  lemma SortedCover(merged: seq<ByteRange>, ranges: seq<ByteRange>, sorted: seq<ByteRange>)
    requires Merges(merged, sorted, |sorted|) && forall x :: x in sorted <==> x in ranges
    ensures Separated(merged) && SameCover(merged, ranges)
  {
    assert sorted[..|sorted|] == sorted;
  }

  // ----- crediting

  /** `credit` is the length of the longest prefix of `chunk` that `done` covers. */
  ghost predicate IsCredit(chunk: ByteRange, done: seq<ByteRange>, credit: nat)
  {
    && credit <= chunk.Len()
    && (forall x: nat :: chunk.start <= x < chunk.start + credit ==> Covered(done, x))
    && (credit < chunk.Len() ==> !Covered(done, chunk.start + credit))
  }

  /** `contiguous_prefix`. */
  method ContiguousPrefix(chunk: ByteRange, done: seq<ByteRange>) returns (credit: nat)
    requires chunk.start <= chunk.end && Separated(done)
    ensures IsCredit(chunk, done, credit)
  {
    var frontier: u64 := chunk.start;
    var i := 0;
    while i < |done|
      invariant 0 <= i <= |done| && chunk.start <= frontier <= chunk.end
      invariant forall x: nat :: chunk.start <= x < frontier ==> Covered(done, x)
      invariant forall k :: 0 <= k < i ==> done[k].end <= frontier || frontier == chunk.end
    {
      var range := done[i];
      if range.start > frontier {
        break;
      }
      if range.end > frontier {
        assert range in done;
        frontier := Min(range.end, chunk.end);
      }
      if frontier >= chunk.end {
        break;
      }
      i := i + 1;
    }
    credit := frontier - chunk.start;
  }

  /** The credit is what it is because of the bytes covered, not of how the record spells them. */
  lemma CreditIsUnique(chunk: ByteRange, a: seq<ByteRange>, b: seq<ByteRange>, total: nat, m: nat, n: nat)
    requires chunk.end <= total
    requires forall x: nat :: x < total ==> (Covered(a, x) <==> Covered(b, x))
    requires IsCredit(chunk, a, m) && IsCredit(chunk, b, n)
    ensures m == n
  {
    var x: nat := chunk.start + Min(m, n);
    assert x < total ==> (Covered(a, x) <==> Covered(b, x));
  }

  /** `plan_resume`: the same chunks as a fresh run, each with the bytes it already has. */
  method PlanResume(total: u64, parts: u32, done: seq<ByteRange>) returns (ranges: seq<ByteRange>, received: seq<nat>)
    ensures ranges == PlanOf(0, total, parts) && |received| == |ranges|
    ensures forall i :: 0 <= i < |ranges| ==> IsCredit(ranges[i], done, received[i])
  {
    ranges := PlanRange(0, total, parts);
    PlanTilesEvenly(0, total, parts);
    var clamped := Clamped(total, done);
    var merged := MergeRanges(clamped);
    received := [];
    for i := 0 to |ranges|
      invariant |received| == i
      invariant forall k :: 0 <= k < i ==> IsCredit(ranges[k], done, received[k])
    {
      var credit := ContiguousPrefix(ranges[i], merged);
      TileEnds(ranges, 0, total, i);
      ClampedCredit(ranges[i], total, done, merged, credit);
      received := received + [credit];
    }
  }

  lemma TileEnds(ranges: seq<ByteRange>, start: nat, end: nat, i: nat)
    requires Tiles(ranges, start, end) && i < |ranges|
    ensures ranges[i].end <= end && start <= ranges[i].start
    ensures forall j :: i < j < |ranges| ==> ranges[i].end <= ranges[j].start
  {
    var j := i;
    while j + 1 < |ranges|
      invariant i <= j < |ranges| && ranges[i].end <= ranges[j].end
      invariant forall k :: i < k <= j ==> ranges[i].end <= ranges[k].start
    {
      assert ranges[j].end == ranges[j + 1].start;
      j := j + 1;
    }
    j := i;
    while j > 0
      invariant 0 <= j <= i && ranges[j].start <= ranges[i].start
    {
      assert ranges[j - 1].end == ranges[j].start;
      j := j - 1;
    }
  }

  /** The `map` and `filter` of the recorded ranges. */
  function Clamped(total: u64, done: seq<ByteRange>): (c: seq<ByteRange>)
    ensures forall r :: r in c ==> r.start < r.end <= total
  {
    if done == [] then []
    else
      var r := ByteRange(Min(done[0].start, total), Min(done[0].end, total));
      (if r.start < r.end then [r] else []) + Clamped(total, done[1..])
  }

  lemma {:induction false} ClampedCover(total: u64, done: seq<ByteRange>, x: nat)
    ensures Covered(Clamped(total, done), x) <==> x < total && Covered(done, x)
  {
    if done != [] {
      ClampedCover(total, done[1..], x);
      var r := ByteRange(Min(done[0].start, total), Min(done[0].end, total));
      var head := if r.start < r.end then [r] else [];
      assert Clamped(total, done) == head + Clamped(total, done[1..]);
      CoverConcat(head, Clamped(total, done[1..]), x);
      CoverConcat([done[0]], done[1..], x);
      assert [done[0]] + done[1..] == done;
    }
  }

  lemma CoverConcat(a: seq<ByteRange>, b: seq<ByteRange>, x: nat)
    ensures Covered(a + b, x) <==> Covered(a, x) || Covered(b, x)
    ensures |a| == 1 ==> (Covered(a, x) <==> a[0].start <= x < a[0].end)
  {
    if Covered(a, x) {
      var r :| r in a && r.start <= x < r.end;
      assert r in a + b;
    }
    if Covered(b, x) {
      var r :| r in b && r.start <= x < r.end;
      assert r in a + b;
    }
    if |a| == 1 { assert a[0] in a; }
  }

  lemma ClampedCredit(chunk: ByteRange, total: u64, done: seq<ByteRange>, merged: seq<ByteRange>, credit: nat)
    requires chunk.end <= total && chunk.start < chunk.end
    requires SameCover(merged, Clamped(total, done)) && IsCredit(chunk, merged, credit)
    ensures IsCredit(chunk, done, credit)
  {
    forall x: nat | x < total
      ensures Covered(merged, x) <==> Covered(done, x)
    {
      assert Covered(merged, x) <==> Covered(Clamped(total, done), x);
      ClampedCover(total, done, x);
    }
  }

  /** A resume depends on the bytes its record covers inside `[0, total)` and on nothing else. */
  lemma ResumeDependsOnCover(total: u64, parts: u32, a: seq<ByteRange>, b: seq<ByteRange>, ra: seq<nat>, rb: seq<nat>)
    requires forall x: nat :: x < total ==> (Covered(a, x) <==> Covered(b, x))
    requires |ra| == |rb| == |PlanOf(0, total, parts)|
    requires forall i :: 0 <= i < |ra| ==> IsCredit(PlanOf(0, total, parts)[i], a, ra[i])
    requires forall i :: 0 <= i < |rb| ==> IsCredit(PlanOf(0, total, parts)[i], b, rb[i])
    ensures ra == rb
  {
    PlanTilesEvenly(0, total, parts);
    forall i | 0 <= i < |ra|
      ensures ra[i] == rb[i]
    {
      TileEnds(PlanOf(0, total, parts), 0, total, i);
      CreditIsUnique(PlanOf(0, total, parts)[i], a, b, total, ra[i], rb[i]);
    }
  }
}
