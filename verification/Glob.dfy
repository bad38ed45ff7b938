/** Path patterns: parsing, the two in-place dynamic programs, and their recursive meaning. */
module Glob {
  import opened Common
  import opened Text

  datatype Token = Literal(c: char) | One | Many

  datatype Component = Recursive | Local(tokens: seq<Token>)

  datatype Pattern = Pattern(spelling: string, components: seq<Component>)

  datatype PatternError = Count | Length | RetainedBytes | Depth | Syntax

  const MAX_PATTERNS: nat := 64
  const MAX_PATTERN_BYTES: nat := 1024
  const MAX_RETAINED_BYTES: nat := 16384
  const MAX_DEPTH: nat := 64
  const MAX_PATH_BYTES: nat := 4096

  // ----- meaning

  /** The meaning of a wildcard list: an element that is `many` takes any number of items,
      another exactly one it accepts. */
  predicate Matches<E, X>(many: E -> bool, accepts: (E, X) -> bool, es: seq<E>, xs: seq<X>)
    decreases |es| + |xs|
  {
    if es == [] then xs == []
    else if many(es[0]) then
      Matches(many, accepts, es[1..], xs) || (xs != [] && Matches(many, accepts, es, xs[1..]))
    else xs != [] && accepts(es[0], xs[0]) && Matches(many, accepts, es[1..], xs[1..])
  }

  predicate IsMany(t: Token) { t.Many? }

  predicate Accepts(t: Token, c: char) { t.One? || t == Literal(c) }

  predicate IsRecursive(c: Component) { c.Recursive? }

  /** A local component against one path part. */
  predicate AcceptsPart(c: Component, part: string)
  {
    c.Local? && Matches(IsMany, Accepts, c.tokens, part)
  }

  /** The recursive meaning of a pattern. */
  predicate PathMatches(components: seq<Component>, parts: seq<string>)
  {
    Matches(IsRecursive, AcceptsPart, components, parts)
  }

  /** A concatenation matches by splitting the items. */
  lemma {:induction false} MatchesConcat<E, X>(many: E -> bool, accepts: (E, X) -> bool,
                                         a: seq<E>, b: seq<E>, xs: seq<X>)
    ensures Matches(many, accepts, a + b, xs)
       <==> exists k :: 0 <= k <= |xs| && Matches(many, accepts, a, xs[..k]) && Matches(many, accepts, b, xs[k..])
    decreases |a| + |xs|
  {
    if a == [] {
      assert a + b == b && xs[0..] == xs && xs[..0] == [];
      assert Matches(many, accepts, b, xs) ==> Matches(many, accepts, a, xs[..0]) && Matches(many, accepts, b, xs[0..]);
    } else {
      assert (a + b)[0] == a[0] && (a + b)[1..] == a[1..] + b;
      if many(a[0]) {
        MatchesConcat(many, accepts, a[1..], b, xs);
        if xs != [] { MatchesConcat(many, accepts, a, b, xs[1..]); }
      } else if xs != [] {
        MatchesConcat(many, accepts, a[1..], b, xs[1..]);
      }
      forall k | 0 <= k <= |xs|
        ensures Matches(many, accepts, a, xs[..k]) <==>
                if many(a[0])
                 then Matches(many, accepts, a[1..], xs[..k]) || (k > 0 && Matches(many, accepts, a, xs[1..][..k - 1]))
                else k > 0 && accepts(a[0], xs[0]) && Matches(many, accepts, a[1..], xs[1..][..k - 1])
        ensures k > 0 ==> xs[k..] == xs[1..][k - 1..]
      {
        if k > 0 { assert xs[..k][1..] == xs[1..][..k - 1] && xs[..k][0] == xs[0]; }
      }
    }
  }

  /** Matching one item more with one element more: the recurrence of the tables. */
  lemma MatchesSnoc<E, X>(many: E -> bool, accepts: (E, X) -> bool, a: seq<E>, e: E, xs: seq<X>, x: X)
    ensures Matches(many, accepts, a + [e], xs + [x])
       <==> if many(e) then Matches(many, accepts, a, xs + [x]) || Matches(many, accepts, a + [e], xs)
            else accepts(e, x) && Matches(many, accepts, a, xs)
  {
    var ys := xs + [x];
    MatchesConcat(many, accepts, a, [e], ys);
    MatchesConcat(many, accepts, a, [e], xs);
    forall k | 0 <= k <= |ys|
      ensures ys[..k] == if k <= |xs| then xs[..k] else ys
      ensures ys[k..] == if k <= |xs| then xs[k..] + [x] else []
    {}
    forall k | 0 <= k <= |ys|
      ensures Matches(many, accepts, [e], ys[k..]) <==> if many(e) then true else k == |xs| && accepts(e, x)
    {
      OneElement(many, accepts, e, ys[k..]);
    }
    forall k | 0 <= k <= |xs|
      ensures many(e) ==> Matches(many, accepts, [e], xs[k..])
    {
      OneElement(many, accepts, e, xs[k..]);
    }
    assert xs[..|xs|] == xs && ys[..|ys|] == ys;
    if many(e) {
      if k :| 0 <= k <= |ys| && Matches(many, accepts, a, ys[..k]) && k <= |xs| {
        assert Matches(many, accepts, a, xs[..k]) && Matches(many, accepts, [e], xs[k..]);
      }
      if k :| 0 <= k <= |xs| && Matches(many, accepts, a, xs[..k]) && Matches(many, accepts, [e], xs[k..]) {
        assert Matches(many, accepts, a, ys[..k]) && Matches(many, accepts, [e], ys[k..]);
      }
      if Matches(many, accepts, a, ys) {
        assert Matches(many, accepts, a, ys[..|ys|]) && Matches(many, accepts, [e], ys[|ys|..]);
      }
    } else if accepts(e, x) && Matches(many, accepts, a, xs) {
      assert Matches(many, accepts, a, ys[..|xs|]) && Matches(many, accepts, [e], ys[|xs|..]);
    }
  }

  lemma {:induction false} OneElement<E, X>(many: E -> bool, accepts: (E, X) -> bool, e: E, xs: seq<X>)
    ensures Matches(many, accepts, [e], xs) <==> if many(e) then true else |xs| == 1 && accepts(e, xs[0])
  {
    assert [e][1..] == [];
    if many(e) && xs != [] { OneElement(many, accepts, e, xs[1..]); }
  }

  lemma {:induction false} MatchesNothing<E, X>(many: E -> bool, accepts: (E, X) -> bool, a: seq<E>)
    ensures Matches(many, accepts, a, []) <==> forall i :: 0 <= i < |a| ==> many(a[i])
  {
    if a != [] {
      MatchesNothing(many, accepts, a[1..]);
      assert (forall i :: 0 <= i < |a| ==> many(a[i]))
         <==> many(a[0]) && forall i :: 0 <= i < |a[1..]| ==> many(a[1..][i]) by {
        assert forall i :: 0 < i < |a| ==> a[i] == a[1..][i - 1];
      }
    }
  }

  // ----- the inner program

  /** `Token::matches`: one row, updated in place, read through `diagonal`. `cells` counts cell updates. */
  method TokensMatch(tokens: seq<Token>, part: string, scratch: array<bool>) returns (m: bool, ghost cells: nat)
    requires |tokens| < scratch.Length
    modifies scratch
    ensures m == Matches(IsMany, Accepts, tokens, part)
    ensures cells == |tokens| * (|part| + 1)
  {
    var n := |tokens|;
    cells := 0;
    forall k | 0 <= k <= n {
      scratch[k] := false;
    }
    scratch[0] := true;
    for index := 0 to n
      invariant forall k :: 0 <= k <= index ==> scratch[k] == Matches(IsMany, Accepts, tokens[..k], part[..0])
      invariant cells == index
    {
      RowStart(tokens, index);
      scratch[index + 1] := scratch[index] && tokens[index].Many?;
      cells := cells + 1;
    }
    for j := 0 to |part|
      invariant forall k :: 0 <= k <= n ==> scratch[k] == Matches(IsMany, Accepts, tokens[..k], part[..j])
      invariant cells == n * (j + 1)
    {
      var scalar := part[j];
      var diagonal := scratch[0];
      scratch[0] := false;
      assert n * (j + 2) == n * (j + 1) + n;
      for index := 0 to n
        invariant diagonal == Matches(IsMany, Accepts, tokens[..index], part[..j])
        invariant forall k :: 0 <= k <= index ==> scratch[k] == Matches(IsMany, Accepts, tokens[..k], part[..j + 1])
        invariant forall k :: index < k <= n ==> scratch[k] == Matches(IsMany, Accepts, tokens[..k], part[..j])
        invariant cells == n * (j + 1) + index
      {
        RowStep(tokens, index, part, j);
        var previous := scratch[index + 1];
        match tokens[index] {
          case Literal(literal) => scratch[index + 1] := diagonal && literal == scalar;
          case One => scratch[index + 1] := diagonal;
          case Many => scratch[index + 1] := previous || scratch[index];
        }
        diagonal := previous;
        cells := cells + 1;
      }
    }
    assert tokens[..n] == tokens && part[..|part|] == part;
    m := scratch[n];
  }

  lemma RowStart(tokens: seq<Token>, index: nat)
    requires index < |tokens|
    ensures Matches(IsMany, Accepts, tokens[..index + 1], "")
       <==> Matches(IsMany, Accepts, tokens[..index], "") && tokens[index].Many?
  {
    MatchesNothing(IsMany, Accepts, tokens[..index + 1]);
    MatchesNothing(IsMany, Accepts, tokens[..index]);
    assert tokens[..index + 1] == tokens[..index] + [tokens[index]];
  }

  lemma RowStep(tokens: seq<Token>, index: nat, part: string, j: nat)
    requires index < |tokens| && j < |part|
    ensures Matches(IsMany, Accepts, tokens[..index + 1], part[..j + 1])
       <==> match tokens[index]
            case Literal(c) => Matches(IsMany, Accepts, tokens[..index], part[..j]) && c == part[j]
            case One => Matches(IsMany, Accepts, tokens[..index], part[..j])
            case Many =>
              || Matches(IsMany, Accepts, tokens[..index + 1], part[..j])
              || Matches(IsMany, Accepts, tokens[..index], part[..j + 1])
  {
    assert tokens[..index + 1] == tokens[..index] + [tokens[index]];
    assert part[..j + 1] == part[..j] + [part[j]];
    MatchesSnoc(IsMany, Accepts, tokens[..index], tokens[index], part[..j], part[j]);
  }

  // ----- the outer program

  /** State `i` after `parts`: the first `i` components matched, or component `i` is `**` and has absorbed parts. */
  predicate StateAt(components: seq<Component>, parts: seq<string>, i: nat)
    requires i <= |components|
  {
    if i < |components| && components[i].Recursive? then PathMatches(components[..i + 1], parts)
    else PathMatches(components[..i], parts)
  }

  /** What one part does to the states, before recursive components are skipped. */
  predicate Moves(components: seq<Component>, parts: seq<string>, part: string, i: nat)
    requires i <= |components|
  {
    || (i < |components| && components[i].Recursive? && StateAt(components, parts, i))
    || (i > 0 && StateAt(components, parts, i - 1) && AcceptsPart(components[i - 1], part))
  }

  lemma StateStep(components: seq<Component>, parts: seq<string>, part: string, i: nat)
    requires i <= |components|
    ensures StateAt(components, parts + [part], i)
       <==> || Moves(components, parts, part, i)
            || (i > 0 && components[i - 1].Recursive? && StateAt(components, parts + [part], i - 1))
  {
    if i < |components| {
      assert components[..i + 1] == components[..i] + [components[i]];
      MatchesSnoc(IsRecursive, AcceptsPart, components[..i], components[i], parts, part);
    }
    if i > 0 {
      assert components[..i] == components[..i - 1] + [components[i - 1]];
      MatchesSnoc(IsRecursive, AcceptsPart, components[..i - 1], components[i - 1], parts, part);
    }
  }

  lemma StateInitially(components: seq<Component>, i: nat)
    requires i <= |components|
    ensures StateAt(components, [], i) <==> i == 0 || (components[i - 1].Recursive? && StateAt(components, [], i - 1))
  {
    hide Matches;
    MatchesNothing(IsRecursive, AcceptsPart, components[..i]);
    if i > 0 { MatchesNothing(IsRecursive, AcceptsPart, components[..i - 1]); }
    if i < |components| { MatchesNothing(IsRecursive, AcceptsPart, components[..i + 1]); }
    assert forall k :: 0 <= k < i ==> components[..i][k] == components[k];
    assert i > 0 ==> forall k :: 0 <= k < i - 1 ==> components[..i - 1][k] == components[k];
    assert i < |components| ==> forall k :: 0 <= k < i + 1 ==> components[..i + 1][k] == components[k];
  }

  /** `skip_recursive`: closes the states under skipping a `**`, in one pass from the front. */
  method SkipRecursive(components: seq<Component>, states: array<bool>) returns (ghost visits: nat)
    requires states.Length == |components| + 1
    modifies states
    ensures states[0] == old(states[0])
    ensures forall k {:trigger old(states[k])} :: 0 < k <= |components| ==>
              states[k] == (old(states[k]) || (components[k - 1].Recursive? && states[k - 1]))
    ensures visits == |components|
  {
    visits := 0;
    for index := 0 to |components|
      invariant states[0] == old(states[0])
      invariant forall k {:trigger old(states[k])} :: 0 < k <= index ==>
                  states[k] == (old(states[k]) || (components[k - 1].Recursive? && states[k - 1]))
      invariant forall k {:trigger states[k]} {:trigger old(states[k])} :: index < k <= |components| ==>
                  states[k] == old(states[k])
      invariant visits == index
    {
      assert states[index + 1] == old(states[index + 1]);
      if states[index] && components[index].Recursive? {
        states[index + 1] := true;
      }
      visits := visits + 1;
    }
  }

  lemma {:induction false} ClosedStates(components: seq<Component>, parts: seq<string>, part: string, moved: seq<bool>,
                                         closed: seq<bool>, i: nat)
    requires |moved| == |closed| == |components| + 1 && i <= |components|
    requires forall k :: 0 <= k <= |components| ==> moved[k] == Moves(components, parts, part, k)
    requires closed[0] == moved[0]
    requires forall k :: 0 < k <= |components| ==>
               closed[k] == (moved[k] || (components[k - 1].Recursive? && closed[k - 1]))
    ensures closed[i] == StateAt(components, parts + [part], i)
  {
    StateStep(components, parts, part, i);
    if i > 0 { ClosedStates(components, parts, part, moved, closed, i - 1); }
  }

  lemma {:induction false} InitialStates(components: seq<Component>, closed: seq<bool>, i: nat)
    requires |closed| == |components| + 1 && i <= |components| && closed[0]
    requires forall k :: 0 < k <= |components| ==> closed[k] == (components[k - 1].Recursive? && closed[k - 1])
    ensures closed[i] == StateAt(components, [], i)
  {
    StateInitially(components, i);
    if i > 0 { InitialStates(components, closed, i - 1); }
  }

  function TokenCount(components: seq<Component>): nat
  {
    if components == [] then 0
    else (if components[0].Local? then |components[0].tokens| else 0) + TokenCount(components[1..])
  }

  lemma {:induction false} TokenCountSnoc(components: seq<Component>, i: nat)
    requires i < |components|
    ensures TokenCount(components[..i + 1])
         == TokenCount(components[..i]) + if components[i].Local? then |components[i].tokens| else 0
  {
    if i > 0 {
      TokenCountSnoc(components[1..], i - 1);
      assert components[..i + 1][1..] == components[1..][..i] && components[..i][1..] == components[1..][..i - 1];
    }
  }

  /** The updates for one part over the first `n` components: one for each, and a whole row for each local one whose
      state is on. */
  function PartWork(components: seq<Component>, parts: seq<string>, part: string, n: nat): nat
    requires n <= |components|
  {
    if n == 0 then 0
    else
      PartWork(components, parts, part, n - 1) + 1
      + if StateAt(components, parts, n - 1) && components[n - 1].Local? then |components[n - 1].tokens| * (|part| + 1)
        else 0
  }

  lemma {:induction false} PartWorkBound(components: seq<Component>, parts: seq<string>, part: string, n: nat)
    requires n <= |components|
    ensures PartWork(components, parts, part, n) <= TokenCount(components[..n]) * (|part| + 1) + n
  {
    hide StateAt;
    if n > 0 {
      var before := PartWork(components, parts, part, n - 1);
      PartWorkBound(components, parts, part, n - 1);
      CostGrows(components, n - 1, part, before, PartWork(components, parts, part, n));
    }
  }

  /** The updates for the first `h` parts, with the skipping before and after each. */
  function PathWork(components: seq<Component>, parts: seq<string>, h: nat): nat
    requires h <= |parts|
  {
    if h == 0 then |components|
    else
      PathWork(components, parts, h - 1)
      + PartWork(components, parts[..h - 1], parts[h - 1], |components|) + |components|
  }

  lemma {:induction false} PathWorkBound(components: seq<Component>, parts: seq<string>, h: nat)
    requires h <= |parts|
    ensures PathWork(components, parts, h)
         <= TokenCount(components) * Lengths(parts[..h]) + 2 * |components| * h + |components|
  {
    hide PartWork, TokenCount;
    if h > 0 {
      PathWorkBound(components, parts, h - 1);
      PartWorkBound(components, parts[..h - 1], parts[h - 1], |components|);
      assert components[..|components|] == components;
      LengthsSnoc(parts, h - 1);
      CostAdds(TokenCount(components), Lengths(parts[..h - 1]), |parts[h - 1]| + 1, |components|, h - 1);
    } else {
      assert parts[..0] == [];
    }
  }

  /** The loop over components for one path part. */
  method Advance(components: seq<Component>, ghost parts: seq<string>, part: string,
                 current: array<bool>, next: array<bool>, scratch: array<bool>) returns (ghost cells: nat)
    requires current.Length == next.Length == |components| + 1
    requires current != next && current != scratch && next != scratch
    requires forall i :: 0 <= i < |components| && components[i].Local? ==> |components[i].tokens| < scratch.Length
    requires forall i :: 0 <= i <= |components| ==> current[i] == StateAt(components, parts, i)
    modifies next, scratch
    ensures forall i :: 0 <= i <= |components| ==> next[i] == Moves(components, parts, part, i)
    ensures cells == PartWork(components, parts, part, |components|)
  {
    var n := |components|;
    cells := 0;
    forall k | 0 <= k <= n {
      next[k] := false;
    }
    for index := 0 to n
      invariant forall i :: 0 <= i <= n ==> current[i] == StateAt(components, parts, i)
      invariant forall k :: 0 <= k < index ==> next[k] == Moves(components, parts, part, k)
      invariant next[index]
              == (index > 0 && StateAt(components, parts, index - 1) && AcceptsPart(components[index - 1], part))
      invariant forall k :: index < k <= n ==> !next[k]
      invariant cells == PartWork(components, parts, part, index)
    {
      if current[index] {
        match components[index] {
          case Recursive => next[index] := true;
          case Local(tokens) =>
            ghost var row;
            var matched;
            matched, row := TokensMatch(tokens, part, scratch);
            if matched {
              next[index + 1] := true;
            }
            cells := cells + row;
        }
      }
      cells := cells + 1;
    }
  }

  lemma CostGrows(components: seq<Component>, index: nat, part: string, before: nat, after: nat)
    requires index < |components| && before <= TokenCount(components[..index]) * (|part| + 1) + index
    requires after <= before + 1 + if components[index].Local? then |components[index].tokens| * (|part| + 1) else 0
    ensures after <= TokenCount(components[..index + 1]) * (|part| + 1) + index + 1
  {
    TokenCountSnoc(components, index);
    var a, b := TokenCount(components[..index]), if components[index].Local? then |components[index].tokens| else 0;
    assert (a + b) * (|part| + 1) == a * (|part| + 1) + b * (|part| + 1);
  }

  function Lengths(parts: seq<string>): nat
  {
    if parts == [] then 0 else |parts[0]| + 1 + Lengths(parts[1..])
  }

  lemma {:induction false} LengthsSnoc(parts: seq<string>, h: nat)
    requires h < |parts|
    ensures Lengths(parts[..h + 1]) == Lengths(parts[..h]) + |parts[h]| + 1
  {
    if h > 0 {
      LengthsSnoc(parts[1..], h - 1);
      assert parts[..h + 1][1..] == parts[1..][..h] && parts[..h][1..] == parts[1..][..h - 1];
    }
  }

  lemma {:induction false} SplitLengths(path: string)
    ensures Lengths(Split(path, '/')) == |path| + 1
    decreases |path|
  {
    var i := IndexOf(path, '/');
    if i < |path| {
      SplitLengths(path[i + 1..]);
      assert Split(path, '/')[1..] == Split(path[i + 1..], '/');
    }
  }

  lemma CostAdds(tokens: nat, done: nat, more: nat, components: nat, h: nat)
    ensures tokens * (done + more) + 2 * components * (h + 1)
     == tokens * done + 2 * components * h + (tokens * more + 2 * components)
  {}

  /** The scratch row's size: the longest local component. */
  method LongestLocal(components: seq<Component>) returns (longest: nat)
    ensures forall i :: 0 <= i < |components| && components[i].Local? ==> |components[i].tokens| <= longest
  {
    longest := 0;
    for i := 0 to |components|
      invariant forall k :: 0 <= k < i && components[k].Local? ==> |components[k].tokens| <= longest
    {
      if components[i].Local? && longest < |components[i].tokens| {
        longest := |components[i].tokens|;
      }
    }
  }

  /** The states before any part: from the first boundary, over leading recursive components. */
  method FirstStates(components: seq<Component>, states: array<bool>) returns (ghost visits: nat)
    requires states.Length == |components| + 1 && states[0]
    requires forall k :: 0 < k <= |components| ==> !states[k]
    modifies states
    ensures forall i :: 0 <= i <= |components| ==> states[i] == StateAt(components, [], i)
    ensures visits == |components|
  {
    visits := SkipRecursive(components, states);
    forall k | 0 < k <= |components|
      ensures states[k] == (components[k - 1].Recursive? && states[k - 1])
    {
      assert !old(states[k]);
    }
    forall i | 0 <= i <= |components|
      ensures states[i] == StateAt(components, [], i)
    {
      InitialStates(components, states[..], i);
    }
  }

  /** One part of a path moves the states, and then recursive components are skipped. */
  method NextStates(components: seq<Component>, ghost parts: seq<string>, part: string,
                    current: array<bool>, next: array<bool>, scratch: array<bool>) returns (ghost cells: nat)
    requires current.Length == next.Length == |components| + 1
    requires current != next && current != scratch && next != scratch
    requires forall i :: 0 <= i < |components| && components[i].Local? ==> |components[i].tokens| < scratch.Length
    requires forall i :: 0 <= i <= |components| ==> current[i] == StateAt(components, parts, i)
    modifies next, scratch
    ensures forall i :: 0 <= i <= |components| ==> next[i] == StateAt(components, parts + [part], i)
    ensures cells == PartWork(components, parts, part, |components|) + |components|
  {
    cells := Advance(components, parts, part, current, next, scratch);
    ghost var moved := next[..];
    ghost var skipped;
    skipped := SkipRecursive(components, next);
    ghost var closed := next[..];
    cells := cells + skipped;
    forall i | 0 <= i <= |components|
      ensures closed[i] == StateAt(components, parts + [part], i)
    {
      ClosedStates(components, parts, part, moved, closed, i);
    }
  }

  /** `Pattern::matches`: for `B` pattern scalars, `D` components, `L` path scalars and `H` parts,
      at most `B * (L + 1) + 2 * D * H + D` cells and states are updated. */
  method PatternMatches(components: seq<Component>, path: string) returns (m: bool, ghost cells: nat)
    ensures m == PathMatches(components, Split(path, '/'))
    ensures cells == PathWork(components, Split(path, '/'), |Split(path, '/')|)
    ensures cells <= TokenCount(components) * (|path| + 1) + 2 * |components| * |Split(path, '/')| + |components|
  {
    var n := |components|;
    var longest := LongestLocal(components);
    var current := new bool[n + 1](_ => false);
    var next := new bool[n + 1](_ => false);
    var local := new bool[longest + 1](_ => false);
    current[0] := true;
    cells := FirstStates(components, current);
    var parts := Split(path, '/');
    for h := 0 to |parts|
      invariant fresh(current) && fresh(next) && fresh(local) && current != next && current != local && next != local
      invariant current.Length == next.Length == n + 1 && local.Length == longest + 1
      invariant forall i :: 0 <= i <= n ==> current[i] == StateAt(components, parts[..h], i)
      invariant cells == PathWork(components, parts, h)
    {
      var part := parts[h];
      ghost var row;
      row := NextStates(components, parts[..h], part, current, next, local);
      assert parts[..h + 1] == parts[..h] + [part];
      cells := cells + row;
      current, next := next, current;
    }
    SplitLengths(path);
    PathWorkBound(components, parts, |parts|);
    assert parts[..|parts|] == parts && components[..n] == components;
    m := current[n];
  }

  // ----- parsing

  predicate IsReserved(c: char) { c in {'\\', ':', '[', ']', '{', '}', '(', ')'} }

  predicate HasDoubleStar(part: string)
  {
    exists i :: 0 <= i < |part| - 1 && part[i] == '*' && part[i + 1] == '*'
  }

  /** One component of the grammar. */
  predicate IsPart(part: string)
  {
    && part != "" && part != "." && part != ".."
    && (forall i :: 0 <= i < |part| ==> !IsControl(part[i]) && !IsReserved(part[i]))
    && (HasDoubleStar(part) ==> part == "**")
  }

  function TokenOf(c: char): Token
  {
    if c == '?' then One else if c == '*' then Many else Literal(c)
  }

  function TokensOf(part: string): (tokens: seq<Token>)
    ensures |tokens| == |part| && forall i :: 0 <= i < |part| ==> tokens[i] == TokenOf(part[i])
  {
    if part == "" then [] else [TokenOf(part[0])] + TokensOf(part[1..])
  }

  function ComponentOf(part: string): Component
  {
    if part == "**" then Recursive else Local(TokensOf(part))
  }

  function ComponentsOf(parts: seq<string>): (components: seq<Component>)
    ensures |components| == |parts| && forall i :: 0 <= i < |parts| ==> components[i] == ComponentOf(parts[i])
  {
    if parts == [] then [] else [ComponentOf(parts[0])] + ComponentsOf(parts[1..])
  }

  function ParseOf(spelling: string): Result<Pattern, PatternError>
  {
    var parts := Split(spelling, '/');
    if |parts| > MAX_DEPTH then Err(Depth)
    else if exists i :: 0 <= i < |parts| && !IsPart(parts[i]) then Err(Syntax)
    else Ok(Pattern(spelling, ComponentsOf(parts)))
  }

  method ContainsDoubleStar(part: string) returns (b: bool)
    ensures b == HasDoubleStar(part)
  {
    var i := 0;
    while i + 1 < |part|
      invariant 0 <= i
      invariant forall k :: 0 <= k < i && k + 1 < |part| ==> !(part[k] == '*' && part[k + 1] == '*')
    {
      if part[i] == '*' && part[i + 1] == '*' {
        return true;
      }
      i := i + 1;
    }
    b := false;
  }

  /** `Pattern::parse`. */
  method Parse(spelling: string) returns (r: Result<Pattern, PatternError>)
    ensures r == ParseOf(spelling)
  {
    var parts := Split(spelling, '/');
    if |parts| > MAX_DEPTH {
      return Err(Depth);
    }
    var components: seq<Component> := [];
    for h := 0 to |parts|
      invariant |components| == h
      invariant forall i :: 0 <= i < h ==> IsPart(parts[i]) && components[i] == ComponentOf(parts[i])
    {
      var part := parts[h];
      if part == "" || part == "." || part == ".."
         || exists i :: 0 <= i < |part| && (IsControl(part[i]) || IsReserved(part[i])) {
        return Err(Syntax);
      }
      if part == "**" {
        components := components + [Recursive];
      } else {
        var double := ContainsDoubleStar(part);
        if double {
          return Err(Syntax);
        }
        components := components + [Local(TokensOf(part))];
      }
    }
    assert components == ComponentsOf(parts);
    r := Ok(Pattern(spelling, components));
  }

  // ----- the oracle on spellings

  /** The recursive meaning of one spelled component. */
  predicate SpelledPartMatches(pattern: string, text: string)
    decreases |pattern| + |text|
  {
    if pattern == "" then text == ""
    else if pattern[0] == '*' then
      SpelledPartMatches(pattern[1..], text) || (text != "" && SpelledPartMatches(pattern, text[1..]))
    else
      text != "" && (pattern[0] == '?' || pattern[0] == text[0]) && SpelledPartMatches(pattern[1..], text[1..])
  }

  /** The recursive meaning of a spelled pattern. */
  predicate SpelledMatches(pattern: seq<string>, text: seq<string>)
    decreases |pattern| + |text|
  {
    if pattern == [] then text == []
    else if pattern[0] == "**" then
      SpelledMatches(pattern[1..], text) || (text != [] && SpelledMatches(pattern, text[1..]))
    else
      text != [] && SpelledPartMatches(pattern[0], text[0]) && SpelledMatches(pattern[1..], text[1..])
  }

  lemma {:induction false} PartOracle(part: string, text: string)
    ensures Matches(IsMany, Accepts, TokensOf(part), text) == SpelledPartMatches(part, text)
    decreases |part| + |text|
  {
    if part != "" {
      assert TokensOf(part)[1..] == TokensOf(part[1..]);
      PartOracle(part[1..], text);
      if text != "" {
        PartOracle(part, text[1..]);
        PartOracle(part[1..], text[1..]);
      }
    }
  }

  lemma {:induction false} PathOracle(pattern: seq<string>, text: seq<string>)
    ensures PathMatches(ComponentsOf(pattern), text) == SpelledMatches(pattern, text)
    decreases |pattern| + |text|
  {
    if pattern != [] {
      assert ComponentsOf(pattern)[1..] == ComponentsOf(pattern[1..]);
      PathOracle(pattern[1..], text);
      if text != [] {
        PathOracle(pattern, text[1..]);
        PathOracle(pattern[1..], text[1..]);
        PartOracle(pattern[0], text[0]);
      }
    }
  }

  /** A parsed pattern matches a path exactly when its spelling does, by the recursive reading of both. */
  lemma ParsedPatternsMeanTheirSpelling(spelling: string, path: string)
    requires ParseOf(spelling).Ok?
    ensures ParseOf(spelling).value.spelling == spelling == Join(Split(spelling, '/'), '/')
    ensures PathMatches(ParseOf(spelling).value.components, Split(path, '/'))
        <==> SpelledMatches(Split(spelling, '/'), Split(path, '/'))
  {
    PathOracle(Split(spelling, '/'), Split(path, '/'));
    JoinSplit(spelling, '/');
  }
}
