/** Include and exclude intent: its budgets, its meaning, and the check that every include matched. */
module Selecting {
  import opened Common
  import opened Text
  import opened Glob

  datatype Selection = Selection(includes: seq<Pattern>, excludes: seq<Pattern>) {
    predicate IsConfigured() { includes != [] || excludes != [] }
  }

  datatype Role = Include | Exclude

  function Bytes(patterns: seq<Pattern>): nat
  {
    if patterns == [] then 0 else Bytes(patterns[..|patterns| - 1]) + |Encode(patterns[|patterns| - 1].spelling)|
  }

  function KeptBytes(s: Selection): nat { Bytes(s.includes) + Bytes(s.excludes) }

  /** `Selection::append`, for `including` and `excluding`. */
  function Append(s: Selection, spelling: string, role: Role): Result<Selection, PatternError>
  {
    if |s.includes| + |s.excludes| >= MAX_PATTERNS then Err(Count)
    else if |Encode(spelling)| > MAX_PATTERN_BYTES then Err(Length)
    else if KeptBytes(s) + |Encode(spelling)| > MAX_RETAINED_BYTES then Err(RetainedBytes)
    else
      match ParseOf(spelling)
      case Err(e) => Err(e)
      case Ok(pattern) =>
        Ok(if role == Include then s.(includes := s.includes + [pattern]) else s.(excludes := s.excludes + [pattern]))
  }

  // ----- adding one by one is adding all at once

  datatype Criterion = Criterion(role: Role, spelling: string)

  function AppendAll(s: Selection, items: seq<Criterion>): Result<Selection, PatternError>
    decreases |items|
  {
    if items == [] then Ok(s)
    else
      match Append(s, items[0].spelling, items[0].role)
      case Err(e) => Err(e)
      case Ok(t) => AppendAll(t, items[1..])
  }

  function Spellings(items: seq<Criterion>, role: Role): seq<string>
  {
    if items == [] then []
    else (if items[0].role == role then [items[0].spelling] else []) + Spellings(items[1..], role)
  }

  predicate AllParse(spellings: seq<string>)
  {
    forall i :: 0 <= i < |spellings| ==> ParseOf(spellings[i]).Ok? && |Encode(spellings[i])| <= MAX_PATTERN_BYTES
  }

  function Parsed(spellings: seq<string>): (patterns: seq<Pattern>)
    requires AllParse(spellings)
    ensures |patterns| == |spellings|
    ensures forall i :: 0 <= i < |spellings| ==> patterns[i] == ParseOf(spellings[i]).value
  {
    seq(|spellings|, i requires 0 <= i < |spellings| => ParseOf(spellings[i]).value)
  }

  function TotalBytes(spellings: seq<string>): nat
  {
    if spellings == [] then 0 else |Encode(spellings[0])| + TotalBytes(spellings[1..])
  }

  /** What parsing both lists together accepts: the shared budgets, then every spelling. */
  predicate Acceptable(s: Selection, items: seq<Criterion>)
  {
    && |s.includes| + |s.excludes| + |items| <= MAX_PATTERNS
    && KeptBytes(s) + TotalBytes(Spellings(items, Include)) + TotalBytes(Spellings(items, Exclude))
       <= MAX_RETAINED_BYTES
    && AllParse(Spellings(items, Include)) && AllParse(Spellings(items, Exclude))
  }

  lemma AppendOne(s: Selection, item: Criterion)
    ensures Append(s, item.spelling, item.role).Ok? <==>
            && |s.includes| + |s.excludes| < MAX_PATTERNS && |Encode(item.spelling)| <= MAX_PATTERN_BYTES
            && KeptBytes(s) + |Encode(item.spelling)| <= MAX_RETAINED_BYTES && ParseOf(item.spelling).Ok?
    ensures Append(s, item.spelling, item.role).Ok? ==>
              var t := Append(s, item.spelling, item.role).value;
              && KeptBytes(t) == KeptBytes(s) + |Encode(item.spelling)|
              && t == (if item.role == Include then Selection(s.includes + [ParseOf(item.spelling).value], s.excludes)
                       else Selection(s.includes, s.excludes + [ParseOf(item.spelling).value]))
  {
    hide Encode;
    if ParseOf(item.spelling).Ok? {
      var p := ParseOf(item.spelling).value;
      assert (s.includes + [p])[..|s.includes|] == s.includes && (s.excludes + [p])[..|s.excludes|] == s.excludes;
      assert p.spelling == item.spelling;
    }
  }

  /** Criteria added one at a time are accepted exactly when they are acceptable together, and give each list
      in the order it was added, however the two roles interleave. */
  lemma {:induction false} OneByOneIsTogether(s: Selection, items: seq<Criterion>)
    requires |s.includes| + |s.excludes| <= MAX_PATTERNS && KeptBytes(s) <= MAX_RETAINED_BYTES
    ensures AppendAll(s, items).Ok? <==> Acceptable(s, items)
    ensures AppendAll(s, items).Ok? ==>
              AppendAll(s, items).value == Selection(s.includes + Parsed(Spellings(items, Include)),
                                                     s.excludes + Parsed(Spellings(items, Exclude)))
    decreases |items|
  {
    hide Encode, ParseOf, Bytes, Append, Spellings, TotalBytes, Parsed, AllParse;
    if items == [] {
      NoCriteria(s);
    } else {
      var head, rest := items[0], items[1..];
      AppendOne(s, head);
      SpellingsCons(items, Include);
      SpellingsCons(items, Exclude);
      ParsedCons(head.spelling, Spellings(rest, head.role));
      if Append(s, head.spelling, head.role).Ok? {
        var t := Append(s, head.spelling, head.role).value;
        OneByOneIsTogether(t, rest);
        if AllParse(Spellings(items, head.role)) {
          var mine := if head.role == Include then s.includes else s.excludes;
          Regroup(mine, ParseOf(head.spelling).value, Parsed(Spellings(rest, head.role)));
        }
      }
    }
  }

  lemma NoCriteria(s: Selection)
    ensures Spellings([], Include) == Spellings([], Exclude) == [] && TotalBytes([]) == 0 && AllParse([])
    ensures s == Selection(s.includes + Parsed([]), s.excludes + Parsed([]))
  {}

  lemma Regroup(a: seq<Pattern>, p: Pattern, b: seq<Pattern>)
    ensures (a + [p]) + b == a + ([p] + b)
  {}

  lemma SpellingsCons(items: seq<Criterion>, role: Role)
    requires items != []
    ensures items[0].role != role ==> Spellings(items, role) == Spellings(items[1..], role)
    ensures items[0].role == role ==> Spellings(items, role) == [items[0].spelling] + Spellings(items[1..], role)
  {}

  lemma AllParseCons(head: string, rest: seq<string>)
    ensures AllParse([head] + rest) <==> ParseOf(head).Ok? && |Encode(head)| <= MAX_PATTERN_BYTES && AllParse(rest)
  {
    hide Encode, ParseOf;
    var all := [head] + rest;
    assert all[0] == head && forall i :: 0 <= i < |rest| ==> rest[i] == all[i + 1];
    assert AllParse(rest) && ParseOf(head).Ok? && |Encode(head)| <= MAX_PATTERN_BYTES ==> forall i :: 0 <= i < |all| ==>
        ParseOf(all[i]).Ok? && |Encode(all[i])| <= MAX_PATTERN_BYTES by {
      assert forall i :: 0 < i < |all| ==> all[i] == rest[i - 1];
    }
  }

  lemma ParsedCons(head: string, rest: seq<string>)
    ensures AllParse([head] + rest) <==> ParseOf(head).Ok? && |Encode(head)| <= MAX_PATTERN_BYTES && AllParse(rest)
    ensures TotalBytes([head] + rest) == |Encode(head)| + TotalBytes(rest)
    ensures AllParse([head] + rest) ==> Parsed([head] + rest) == [ParseOf(head).value] + Parsed(rest)
  {
    hide Encode, ParseOf, AllParse, Parsed, TotalBytes;
    AllParseCons(head, rest);
    TotalBytesCons(head, rest);
    if AllParse([head] + rest) { ParsedOfCons(head, rest); }
  }

  lemma TotalBytesCons(head: string, rest: seq<string>)
    ensures TotalBytes([head] + rest) == |Encode(head)| + TotalBytes(rest)
  {
    hide Encode;
    assert ([head] + rest)[1..] == rest;
  }

  lemma ParsedOfCons(head: string, rest: seq<string>)
    requires AllParse([head] + rest) && ParseOf(head).Ok? && AllParse(rest)
    ensures Parsed([head] + rest) == [ParseOf(head).value] + Parsed(rest)
  {
    hide Encode, ParseOf, AllParse, Parsed;
    var all := [head] + rest;
    forall i | 0 <= i < |all|
      ensures Parsed(all)[i] == ([ParseOf(head).value] + Parsed(rest))[i]
    {
      assert all[i] == if i == 0 then head else rest[i - 1];
    }
  }

  // ----- meaning

  /** `path_is_bounded`. */
  predicate PathIsBounded(path: string)
  {
    |Encode(path)| <= MAX_PATH_BYTES && |Split(path, '/')| <= MAX_DEPTH
  }

  predicate PatternAccepts(p: Pattern, path: string)
  {
    PathMatches(p.components, Split(path, '/'))
  }

  predicate AnyAccepts(patterns: seq<Pattern>, path: string)
  {
    exists i :: 0 <= i < |patterns| && PatternAccepts(patterns[i], path)
  }

  /** `Selection::matches`. */
  predicate SelectionMatches(s: Selection, path: string)
  {
    PathIsBounded(path) && (s.includes == [] || AnyAccepts(s.includes, path)) && !AnyAccepts(s.excludes, path)
  }

  method SomeAccepts(patterns: seq<Pattern>, path: string) returns (b: bool)
    ensures b == AnyAccepts(patterns, path)
  {
    hide PathMatches;
    for i := 0 to |patterns|
      invariant forall k :: 0 <= k < i ==> !PatternAccepts(patterns[k], path)
    {
      var accepted, _ := PatternMatches(patterns[i].components, path);
      if accepted {
        return true;
      }
    }
    b := false;
  }

  /** `Selection::matches`, by the matcher. */
  method MatchesPath(s: Selection, path: string) returns (b: bool)
    ensures b == SelectionMatches(s, path)
  {
    hide AnyAccepts, PathIsBounded;
    if !PathIsBounded(path) {
      return false;
    }
    if s.includes != [] {
      var included := SomeAccepts(s.includes, path);
      if !included {
        return false;
      }
    }
    var excluded := SomeAccepts(s.excludes, path);
    b := !excluded;
  }

  /** Every include accepts some bounded path of the scope, whatever is excluded. */
  predicate EveryIncludeMatches(s: Selection, paths: seq<string>)
  {
    forall i :: 0 <= i < |s.includes| ==> IncludeMatches(s.includes[i], paths)
  }

  predicate IncludeMatches(p: Pattern, paths: seq<string>)
  {
    exists j :: 0 <= j < |paths| && PathIsBounded(paths[j]) && PatternAccepts(p, paths[j])
  }

  /** The inner loop: one path against every include not yet seen. */
  method MarkMatches(includes: seq<Pattern>, path: string, matched: array<bool>)
    requires matched.Length == |includes|
    modifies matched
    ensures forall i :: 0 <= i < |includes| ==> matched[i] == (old(matched[i]) || PatternAccepts(includes[i], path))
  {
    hide PathMatches;
    for i := 0 to |includes|
      invariant forall k :: 0 <= k < i ==> matched[k] == (old(matched[k]) || PatternAccepts(includes[k], path))
      invariant forall k :: i <= k < |includes| ==> matched[k] == old(matched[k])
    {
      if !matched[i] {
        var accepted, _ := PatternMatches(includes[i].components, path);
        if accepted {
          matched[i] := true;
        }
      }
    }
  }

  /** `all_includes_match`: one sweep over the paths, with a flag for each include and an early exit. */
  method AllIncludesMatch(s: Selection, paths: seq<string>) returns (b: bool)
    ensures b == EveryIncludeMatches(s, paths)
  {
    hide PathIsBounded, PatternAccepts, IncludeMatches;
    var n := |s.includes|;
    var matched := new bool[n](_ => false);
    if n == 0 {
      return true;
    }
    NoPaths(s.includes);
    assert !matched[0];
    for j := 0 to |paths|
      invariant forall i :: 0 <= i < n ==> matched[i] == IncludeMatches(s.includes[i], paths[..j])
      invariant exists i :: 0 <= i < n && !matched[i]
    {
      var path := paths[j];
      forall i | 0 <= i < n
        ensures IncludeMatches(s.includes[i], paths[..j + 1])
           <==> IncludeMatches(s.includes[i], paths[..j])
                 || (PathIsBounded(path) && PatternAccepts(s.includes[i], path))
        ensures IncludeMatches(s.includes[i], paths[..j + 1]) ==> IncludeMatches(s.includes[i], paths)
      {
        OneMorePath(s.includes[i], paths, j);
      }
      if PathIsBounded(path) {
        MarkMatches(s.includes, path, matched);
        if forall k :: 0 <= k < n ==> matched[k] {
          return true;
        }
      }
    }
    assert paths[..|paths|] == paths;
    b := false;
  }

  lemma NoPaths(includes: seq<Pattern>)
    ensures forall i :: 0 <= i < |includes| ==> !IncludeMatches(includes[i], [])
  {}

  lemma OneMorePath(p: Pattern, paths: seq<string>, j: nat)
    requires j < |paths|
    ensures IncludeMatches(p, paths[..j + 1])
       <==> IncludeMatches(p, paths[..j]) || (PathIsBounded(paths[j]) && PatternAccepts(p, paths[j]))
    ensures IncludeMatches(p, paths[..j + 1]) ==> IncludeMatches(p, paths)
  {
    hide PathIsBounded, PatternAccepts;
    if IncludeMatches(p, paths[..j + 1]) {
      var k :| 0 <= k < |paths[..j + 1]| && PathIsBounded(paths[..j + 1][k]) && PatternAccepts(p, paths[..j + 1][k]);
      assert paths[..j + 1][k] == paths[k];
      assert k < j ==> paths[..j][k] == paths[k];
    }
    if IncludeMatches(p, paths[..j]) {
      var k :| 0 <= k < |paths[..j]| && PathIsBounded(paths[..j][k]) && PatternAccepts(p, paths[..j][k]);
      assert paths[..j + 1][k] == paths[k];
    }
    assert paths[..j + 1][j] == paths[j];
  }
}
