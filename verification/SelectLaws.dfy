/** What a selection over several inputs keeps, and when it succeeds, read off the spellings and the discovery. */
module SelectionLaws {
  import opened Common
  import opened Text
  import opened Glob
  import opened Selecting
  import opened InventorySelection

  function Slashes(path: string): nat
  {
    if path == "" then 0 else (if path[0] == '/' then 1 else 0) + Slashes(path[1..])
  }

  lemma {:induction false} SlashesConcat(a: string, b: string)
    ensures Slashes(a + b) == Slashes(a) + Slashes(b)
  {
    if a == "" {
      assert a + b == b;
    } else {
      assert (a + b)[1..] == a[1..] + b;
      SlashesConcat(a[1..], b);
    }
  }

  lemma {:induction false} NoSlashes(s: string)
    requires '/' !in s
    ensures Slashes(s) == 0
  {
    if s != "" { NoSlashes(s[1..]); }
  }

  lemma {:induction false} SplitsAtSlashes(path: string)
    ensures |Split(path, '/')| == Slashes(path) + 1
    decreases |path|
  {
    var i := IndexOf(path, '/');
    NoSlashes(path[..i]);
    if i < |path| {
      assert path == path[..i] + (['/'] + path[i + 1..]);
      SlashesConcat(path[..i], ['/'] + path[i + 1..]);
      assert (['/'] + path[i + 1..])[1..] == path[i + 1..];
      SplitsAtSlashes(path[i + 1..]);
    } else {
      assert path[..i] == path;
    }
  }

  predicate InSome(parts: seq<string>, c: char) { exists i :: 0 <= i < |parts| && c in parts[i] }

  lemma InSomeCons(part: string, rest: seq<string>, c: char)
    ensures InSome([part] + rest, c) <==> c in part || InSome(rest, c)
  {
    var parts := [part] + rest;
    if c in part { assert c in parts[0]; }
    if i :| 0 <= i < |rest| && c in rest[i] { assert c in parts[i + 1]; }
    if i :| 0 <= i < |parts| && c in parts[i] { assert i > 0 ==> c in rest[i - 1]; }
  }

  lemma {:induction false} CharsAreOfParts(s: string, c: char)
    requires c != '/'
    ensures c in s <==> InSome(Split(s, '/'), c)
    decreases |s|
  {
    hide InSome;
    var i := IndexOf(s, '/');
    if i == |s| {
      assert s[..i] == s;
      InSomeCons(s, [], c);
      InSomeNone(c);
      assert [s] + [] == [s];
    } else {
      CharsAreOfParts(s[i + 1..], c);
      InSomeCons(s[..i], Split(s[i + 1..], '/'), c);
      AroundSlash(s, i, c);
    }
  }

  lemma InSomeNone(c: char)
    ensures !InSome([], c)
  {}

  lemma AroundSlash(s: string, i: nat, c: char)
    requires i < |s| && s[i] != c
    ensures c in s <==> c in s[..i] || c in s[i + 1..]
  {
    assert s == s[..i] + [s[i]] + s[i + 1..];
  }

  /** A part that can stand in a pattern. */
  predicate IsShaped(part: string)
  {
    && part !in ["", ".", ".."]
    && (part == "**" || forall i :: 0 < i < |part| ==> part[i - 1] != '*' || part[i] != '*')
  }

  /** What the grammar refuses: more than 64 parts; and short of that a control or a reserved character anywhere, an
      empty part, "." or "..", and two stars in a row that are not a part of their own. */
  lemma GrammarIs(spelling: string)
    ensures ParseOf(spelling) == Err(Depth) <==> Slashes(spelling) >= 64
    ensures ParseOf(spelling).Ok?
       <==> && Slashes(spelling) < 64 && (forall c :: c in spelling ==> IsOrdinary(c))
            && forall part :: part in Split(spelling, '/') ==> IsShaped(part)
  {
    hide Split, Slashes, IsPart, IsShaped, IsOrdinary;
    var parts := Split(spelling, '/');
    SplitsAtSlashes(spelling);
    forall i | 0 <= i < |parts|
      ensures IsPart(parts[i]) <==> IsShaped(parts[i]) && forall c :: c in parts[i] ==> IsOrdinary(c)
    {
      PartIs(parts[i]);
    }
    if forall i :: 0 <= i < |parts| ==> IsPart(parts[i]) {
      forall c | c in spelling
        ensures IsOrdinary(c)
      {
        if c == '/' { SlashIsOrdinary(); } else { CharsAreOfParts(spelling, c); }
      }
    }
    if forall c :: c in spelling ==> IsOrdinary(c) {
      forall i, c | 0 <= i < |parts| && c in parts[i]
        ensures IsOrdinary(c)
      {
        CharsAreOfParts(spelling, c);
      }
    }
    assert (forall part :: part in parts ==> IsShaped(part)) <==> forall i :: 0 <= i < |parts| ==> IsShaped(parts[i]);
  }

  lemma SlashIsOrdinary()
    ensures IsOrdinary('/')
  {}

  predicate IsOrdinary(c: char) { 0x20 <= c as int && !(0x7F <= c as int < 0xA0) && c !in "\\:[]{}()" }

  lemma PartIs(part: string)
    ensures IsPart(part) <==> IsShaped(part) && forall c :: c in part ==> IsOrdinary(c)
  {
    assert forall c :: c in part ==> exists i :: 0 <= i < |part| && part[i] == c;
    assert HasDoubleStar(part) <==> exists j :: 0 < j < |part| && part[j - 1] == '*' && part[j] == '*' by {
      if HasDoubleStar(part) {
        var i :| 0 <= i < |part| - 1 && part[i] == '*' && part[i + 1] == '*';
        assert part[(i + 1) - 1] == '*' && part[i + 1] == '*';
      }
      if j :| 0 < j < |part| && part[j - 1] == '*' && part[j] == '*' {
        assert part[j - 1] == '*' && part[(j - 1) + 1] == '*';
      }
    }
    forall c
      ensures !IsControl(c) && !IsReserved(c) <==> IsOrdinary(c)
    {
      Ordinary(c);
    }
  }

  lemma Ordinary(c: char)
    ensures !IsControl(c) && !IsReserved(c) <==> IsOrdinary(c)
  {}

  /** The patterns are those their spellings are parsed to. */
  predicate IsSpelled(s: Selection)
  {
    && (forall i :: 0 <= i < |s.includes| ==> ParseOf(s.includes[i].spelling) == Ok(s.includes[i]))
    && (forall i :: 0 <= i < |s.excludes| ==> ParseOf(s.excludes[i].spelling) == Ok(s.excludes[i]))
  }

  /** Criteria added one at a time give such a selection. */
  lemma {:induction false} AddedIsSpelled(s: Selection, items: seq<Criterion>)
    requires IsSpelled(s) && AppendAll(s, items).Ok?
    ensures IsSpelled(AppendAll(s, items).value)
    decreases |items|
  {
    hide ParseOf, Encode, Bytes;
    if items != [] {
      var item := items[0];
      ParseKeepsSpelling(item.spelling);
      AddedIsSpelled(Append(s, item.spelling, item.role).value, items[1..]);
    }
  }

  lemma ParseKeepsSpelling(spelling: string)
    requires ParseOf(spelling).Ok?
    ensures ParseOf(spelling).value.spelling == spelling
  {}

  /** A path within 4096 bytes and 64 parts. */
  predicate IsShort(path: string) { |Encode(path)| <= 4096 && Slashes(path) < 64 }

  /** The recursive reading of a spelling accepts the path. */
  predicate Reads(spelling: string, path: string) { SpelledMatches(Split(spelling, '/'), Split(path, '/')) }

  predicate SomeReads(patterns: seq<Pattern>, path: string)
  {
    exists i :: 0 <= i < |patterns| && Reads(patterns[i].spelling, path)
  }

  /** The path is short, some include's spelling accepts it, if there are includes, and no exclude's does. */
  predicate Picks(s: Selection, path: string)
  {
    IsShort(path) && (s.includes == [] || SomeReads(s.includes, path)) && !SomeReads(s.excludes, path)
  }

  lemma BoundedIsShort(path: string)
    ensures PathIsBounded(path) <==> IsShort(path)
  {
    hide Encode, Split, Slashes;
    SplitsAtSlashes(path);
  }

  lemma AcceptsAsRead(p: Pattern, path: string)
    requires ParseOf(p.spelling) == Ok(p)
    ensures PatternAccepts(p, path) <==> Reads(p.spelling, path)
  {
    hide ParseOf, PathMatches, SpelledMatches, Split;
    ParsedPatternsMeanTheirSpelling(p.spelling, path);
  }

  lemma AnyAcceptsAsRead(patterns: seq<Pattern>, path: string)
    requires forall i :: 0 <= i < |patterns| ==> ParseOf(patterns[i].spelling) == Ok(patterns[i])
    ensures AnyAccepts(patterns, path) <==> SomeReads(patterns, path)
  {
    hide ParseOf, PatternAccepts, Reads;
    forall i | 0 <= i < |patterns|
      ensures PatternAccepts(patterns[i], path) <==> Reads(patterns[i].spelling, path)
    {
      AcceptsAsRead(patterns[i], path);
    }
  }

  /** Matching is what the spellings say. */
  lemma MatchingIsPicking(s: Selection, path: string)
    requires IsSpelled(s)
    ensures SelectionMatches(s, path) <==> Picks(s, path)
  {
    hide ParseOf, PathIsBounded, IsShort, AnyAccepts, SomeReads;
    BoundedIsShort(path);
    AnyAcceptsAsRead(s.includes, path);
    AnyAcceptsAsRead(s.excludes, path);
  }

  // ----- what stays

  predicate AllSpelled(d: Discovered)
  {
    forall f :: f in d.files && f.selection.Some? ==> IsSpelled(f.selection.value)
  }

  /** The path is picked, and every member wanted of the file's own input is the file itself. */
  predicate Stays(members: seq<Wanted>, f: File)
  {
    && (f.selection.Some? ==> Picks(f.selection.value, f.path))
    && forall w :: w in members && w.occurrence == f.occurrence ==> f.token.Some? && f.token.value == w.token
  }

  lemma KeptStays(members: seq<Wanted>, f: File)
    requires f.selection.Some? ==> IsSpelled(f.selection.value)
    ensures Kept(members, f) <==> Stays(members, f)
  {
    hide Picks, SelectionMatches, IsSpelled;
    if f.selection.Some? { MatchingIsPicking(f.selection.value, f.path); }
    if Kept(members, f) {
      forall w | w in members && w.occurrence == f.occurrence
        ensures f.token == Some(w.token)
      {
        var k :| 0 <= k < |members| && members[k] == w;
        assert Spared(f, members[k]);
      }
    }
    if Stays(members, f) {
      forall k | 0 <= k < |members|
        ensures Spared(f, members[k])
      {
        assert members[k] in members;
      }
    }
  }

  /** A file of the discovery is in the result exactly when it stays, and there with its selection frozen; the result
      holds nothing else. */
  lemma SelectedStays(d: Discovered, members: seq<Wanted>)
    requires AllSpelled(d)
    ensures forall f :: f in d.files ==>
              (f.(checked := f.selection) in Selected(d, members).files <==> Stays(members, f))
    ensures forall g :: g in Selected(d, members).files ==>
              exists f :: f in d.files && Stays(members, f) && g == f.(checked := f.selection)
  {
    hide Kept, Stays, IsSpelled;
    var kept := Filter(KeptBy(members), d.files);
    var r := Frozen(kept);
    forall f | f in d.files
      ensures Kept(members, f) <==> Stays(members, f)
    {
      KeptStays(members, f);
    }
    forall g | g in r
      ensures exists f :: f in d.files && Stays(members, f) && g == f.(checked := f.selection)
    {
      var k :| 0 <= k < |r| && r[k] == g;
      assert kept[k] in kept;
    }
    forall f | f in d.files
      ensures f.(checked := f.selection) in r <==> Stays(members, f)
    {
      if Stays(members, f) {
        assert f in kept;
        var k :| 0 <= k < |kept| && kept[k] == f;
        assert r[k] in r;
      }
      if f.(checked := f.selection) in r {
        var h :| h in d.files && Stays(members, h) && f.(checked := f.selection) == h.(checked := h.selection);
        StaysWhatever(members, f, h);
      }
    }
  }

  lemma StaysWhatever(members: seq<Wanted>, f: File, h: File)
    requires f.(checked := f.selection) == h.(checked := h.selection)
    ensures Stays(members, f) <==> Stays(members, h)
  {
    hide Picks;
    assert f.selection == h.selection && f.path == h.path && f.token == h.token && f.occurrence == h.occurrence;
  }

  // ----- when it succeeds

  lemma {:induction false} PathsAreOfFiles(files: seq<File>, o: nat)
    ensures forall path :: path in PathsOf(files, o) <==> exists f :: f in files && f.occurrence == o && f.path == path
  {
    if files != [] {
      PathsAreOfFiles(files[1..], o);
      forall path
        ensures path in PathsOf(files, o) <==> exists f :: f in files && f.occurrence == o && f.path == path
      {
        if f :| f in files && f.occurrence == o && f.path == path {
          assert f == files[0] || f in files[1..];
        }
        if path in PathsOf(files, o) && !(files[0].occurrence == o && files[0].path == path) {
          assert path in PathsOf(files[1..], o);
        }
      }
    }
  }

  /** The spelling accepts the short path of some file of the input. */
  predicate IsFound(d: Discovered, occurrence: nat, spelling: string)
  {
    exists f :: f in d.files && f.occurrence == occurrence && IsShort(f.path) && Reads(spelling, f.path)
  }

  predicate IsMet(d: Discovered, i: Intent)
  {
    forall k :: 0 <= k < |i.selection.includes| ==> IsFound(d, i.occurrence, i.selection.includes[k].spelling)
  }

  lemma MetIsMet(d: Discovered, i: Intent)
    requires IsSpelled(i.selection)
    ensures Met(d, i) <==> IsMet(d, i)
  {
    hide PathIsBounded, IsFound, IncludeMatches, ParseOf, PathsOf;
    forall k | 0 <= k < |i.selection.includes|
      ensures IncludeMatches(i.selection.includes[k], PathsOf(d.files, i.occurrence))
         <==> IsFound(d, i.occurrence, i.selection.includes[k].spelling)
    {
      IncludeIsFound(d, i.occurrence, i.selection.includes[k]);
    }
  }

  lemma IncludeIsFound(d: Discovered, o: nat, p: Pattern)
    requires ParseOf(p.spelling) == Ok(p)
    ensures IncludeMatches(p, PathsOf(d.files, o)) <==> IsFound(d, o, p.spelling)
  {
    hide PathIsBounded, IsShort, PatternAccepts, Reads, ParseOf, PathsOf;
    var paths := PathsOf(d.files, o);
    PathsAreOfFiles(d.files, o);
    forall path
      ensures PathIsBounded(path) && PatternAccepts(p, path) <==> IsShort(path) && Reads(p.spelling, path)
    {
      BoundedIsShort(path);
      AcceptsAsRead(p, path);
    }
    if IncludeMatches(p, paths) {
      var j :| 0 <= j < |paths| && PathIsBounded(paths[j]) && PatternAccepts(p, paths[j]);
      assert paths[j] in paths;
    }
    if f :| f in d.files && f.occurrence == o && IsShort(f.path) && Reads(p.spelling, f.path) {
      assert f.path in paths;
      var j :| 0 <= j < |paths| && paths[j] == f.path;
      assert PathIsBounded(paths[j]) && PatternAccepts(p, paths[j]);
    }
  }

  /** The file asks for something. */
  predicate Asks(f: File)
  {
    f.selection.Some? && (|f.selection.value.includes| > 0 || |f.selection.value.excludes| > 0)
  }

  /** Selecting succeeds exactly when: there are at most 128 entries of at most a mebibyte together; every member wanted
      is a file of its input, or an S3 one a directory; every file that asks for something has a short path, if it is
      an exact remote reference, or else a portable one; every include of every intent is met; and every input with a
      file that asks keeps a file. */
  lemma SucceedsExactly(portable: string -> bool, d: Discovered, intents: seq<Intent>, members: seq<Wanted>)
    requires AllSpelled(d) && forall i :: i in intents ==> IsSpelled(i.selection)
    ensures Succeeds(portable, d, intents, members)
       <==> && |d.files| + |d.directories| <= 128 && FileBytes(d.files) + DirectoryBytes(d.directories) <= 1048576
            && (forall w :: w in members ==>
                  || (exists f :: f in d.files && f.occurrence == w.occurrence && f.token == Some(w.token))
                  || (w.token.s3
                      && exists g :: g in d.directories && g.occurrence == w.occurrence && g.token == Some(w.token)))
            && (forall f :: f in d.files && Asks(f) ==> if f.exactRemote then IsShort(f.path) else portable(f.path))
            && (forall i :: i in intents ==> IsMet(d, i))
            && (forall f :: f in d.files && Asks(f) ==>
                  exists g :: g in d.files && g.occurrence == f.occurrence && Stays(members, g))
  {
    hide IsSpelled, IsShort, PathIsBounded, Met, IsMet, Kept, Stays;
    forall f | f in d.files
      ensures Kept(members, f) <==> Stays(members, f)
      ensures Admissible(portable, f)
         <==> (Asks(f) ==> if f.exactRemote then IsShort(f.path) else portable(f.path))
    {
      KeptStays(members, f);
      BoundedIsShort(f.path);
    }
    forall i | i in intents
      ensures Met(d, i) <==> IsMet(d, i)
    {
      MetIsMet(d, i);
    }
    assert (forall k :: 0 <= k < |intents| ==> Met(d, intents[k])) <==> forall i :: i in intents ==> Met(d, i);
    assert (forall k :: 0 <= k < |members| ==> Found(d, members[k])) <==> forall w :: w in members ==> Found(d, w);
  }
}
