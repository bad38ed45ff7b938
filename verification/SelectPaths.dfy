/** Selecting from a complete discovery over several inputs, and the budget the discovery ran under. */
module InventorySelection {
  import opened Common
  import opened Text
  import opened Glob
  import opened Selecting

  const MAX_FILES: nat := 128
  const MAX_METADATA_BYTES: nat := 1024 * 1024

  datatype MemberToken = MemberToken(s3: bool, id: string)

  /** A discovered file. `exactRemote` says its input is an exact HTTP, S3 or IPFS reference; `checked` is the
      selection frozen by a finished selection. */
  datatype File = File(occurrence: nat, exactRemote: bool, path: string, token: Option<MemberToken>,
                       selection: Option<Selection>, checked: Option<Selection>, retained: nat)

  datatype Directory = Directory(occurrence: nat, token: Option<MemberToken>, retained: nat)

  datatype Discovered = Discovered(files: seq<File>, directories: seq<Directory>)

  datatype Intent = Intent(occurrence: nat, selection: Selection)

  datatype Wanted = Wanted(occurrence: nat, token: MemberToken)

  datatype SelectError = Limit | MissingMember | Layout | PathSelection

  datatype Inventory = Inventory(files: seq<File>, directories: seq<Directory>, charge: nat)

  // ----- lists

  function Filter<T(!new)>(p: T -> bool, s: seq<T>): (r: seq<T>)
    ensures forall x :: x in r <==> x in s && p(x)
  {
    if s == [] then [] else (if p(s[0]) then [s[0]] else []) + Filter(p, s[1..])
  }

  lemma {:induction false} FilterConcat<T(!new)>(p: T -> bool, a: seq<T>, b: seq<T>)
    ensures Filter(p, a + b) == Filter(p, a) + Filter(p, b)
  {
    if a == [] {
      assert a + b == b;
    } else {
      FilterConcat(p, a[1..], b);
      assert (a + b)[1..] == a[1..] + b && (a + b)[0] == a[0];
      var head := if p(a[0]) then [a[0]] else [];
      assert head + (Filter(p, a[1..]) + Filter(p, b)) == (head + Filter(p, a[1..])) + Filter(p, b);
    }
  }

  lemma {:induction false} FiltersCommute<T(!new)>(p: T -> bool, q: T -> bool, s: seq<T>)
    ensures Filter(p, Filter(q, s)) == Filter(q, Filter(p, s))
  {
    if s != [] {
      FiltersCommute(p, q, s[1..]);
      FilterConcat(p, if q(s[0]) then [s[0]] else [], Filter(q, s[1..]));
      FilterConcat(q, if p(s[0]) then [s[0]] else [], Filter(p, s[1..]));
    }
  }

  function FileBytes(files: seq<File>): nat
  {
    if files == [] then 0 else files[0].retained + FileBytes(files[1..])
  }

  function DirectoryBytes(directories: seq<Directory>): nat
  {
    if directories == [] then 0 else directories[0].retained + DirectoryBytes(directories[1..])
  }

  function Charge(d: Discovered): nat { FileBytes(d.files) + DirectoryBytes(d.directories) }

  // ----- what a selection must satisfy

  predicate WithinLimit(d: Discovered)
  {
    |d.files| + |d.directories| <= MAX_FILES && Charge(d) <= MAX_METADATA_BYTES
  }

  predicate Found(d: Discovered, w: Wanted)
  {
    || (exists f :: f in d.files && f.occurrence == w.occurrence && f.token == Some(w.token))
    || (w.token.s3 && exists g :: g in d.directories && g.occurrence == w.occurrence && g.token == Some(w.token))
  }

  predicate Configured(f: File) { f.selection.Some? && f.selection.value.IsConfigured() }

  /** A configured file's path must be bounded, or a portable layout: the latter is any per-path predicate. */
  predicate Admissible(portable: string -> bool, f: File)
  {
    Configured(f) ==> if f.exactRemote then PathIsBounded(f.path) else portable(f.path)
  }

  function PathsOf(files: seq<File>, occurrence: nat): seq<string>
  {
    if files == [] then []
    else (if files[0].occurrence == occurrence then [files[0].path] else []) + PathsOf(files[1..], occurrence)
  }

  predicate Met(d: Discovered, i: Intent)
  {
    EveryIncludeMatches(i.selection, PathsOf(d.files, i.occurrence))
  }

  predicate Chosen(f: File) { f.selection.Some? ==> SelectionMatches(f.selection.value, f.path) }

  predicate Spared(f: File, w: Wanted) { f.occurrence != w.occurrence || f.token == Some(w.token) }

  predicate Kept(members: seq<Wanted>, f: File)
  {
    Chosen(f) && forall k :: 0 <= k < |members| ==> Spared(f, members[k])
  }

  /** A configured file's input keeps some file. */
  predicate Answered(d: Discovered, members: seq<Wanted>, f: File)
  {
    Configured(f) ==> exists g :: g in d.files && g.occurrence == f.occurrence && Kept(members, g)
  }

  /** Everything but the limit: each clause looks at one file, member or intent, within its own occurrence. */
  predicate Selectable(portable: string -> bool, d: Discovered, intents: seq<Intent>, members: seq<Wanted>)
  {
    && (forall k :: 0 <= k < |members| ==> Found(d, members[k]))
    && (forall f :: f in d.files ==> Admissible(portable, f))
    && (forall k :: 0 <= k < |intents| ==> Met(d, intents[k]))
    && (forall f :: f in d.files ==> Answered(d, members, f))
  }

  predicate Succeeds(portable: string -> bool, d: Discovered, intents: seq<Intent>, members: seq<Wanted>)
  {
    WithinLimit(d) && Selectable(portable, d, intents, members)
  }

  function Frozen(files: seq<File>): (r: seq<File>)
    ensures |r| == |files| && forall i :: 0 <= i < |files| ==> r[i] == files[i].(checked := files[i].selection)
  {
    if files == [] then [] else [files[0].(checked := files[0].selection)] + Frozen(files[1..])
  }

  function Selected(d: Discovered, members: seq<Wanted>): Inventory
  {
    Inventory(Frozen(Filter(KeptBy(members), d.files)), d.directories, Charge(d))
  }

  function KeptBy(members: seq<Wanted>): File -> bool { (f: File) => Kept(members, f) }

  // ----- one occurrence alone

  function OwnFile(o: nat): File -> bool { (f: File) => f.occurrence == o }

  function OwnDirectory(o: nat): Directory -> bool { (g: Directory) => g.occurrence == o }

  function OwnIntent(o: nat): Intent -> bool { (i: Intent) => i.occurrence == o }

  function OwnWanted(o: nat): Wanted -> bool { (w: Wanted) => w.occurrence == o }

  function Alone(d: Discovered, o: nat): Discovered
  {
    Discovered(Filter(OwnFile(o), d.files), Filter(OwnDirectory(o), d.directories))
  }

  function IntentsOf(intents: seq<Intent>, o: nat): seq<Intent> { Filter(OwnIntent(o), intents) }

  function MembersOf(members: seq<Wanted>, o: nat): seq<Wanted> { Filter(OwnWanted(o), members) }

  /** Whether an occurrence takes part at all. */
  predicate TakesPart(d: Discovered, intents: seq<Intent>, members: seq<Wanted>, o: nat)
  {
    || (exists f :: f in d.files && f.occurrence == o)
    || (exists i :: i in intents && i.occurrence == o)
    || (exists w :: w in members && w.occurrence == o)
  }

  lemma {:induction false} PathsAlone(files: seq<File>, o: nat)
    ensures PathsOf(Filter(OwnFile(o), files), o) == PathsOf(files, o)
  {
    if files != [] {
      PathsAlone(files[1..], o);
      var p := OwnFile(o);
      var all := Filter(p, files);
      assert if files[0].occurrence == o then all[0] == files[0] && all[1..] == Filter(p, files[1..])
             else all == Filter(p, files[1..]);
    }
  }

  lemma KeptAlone(members: seq<Wanted>, f: File)
    ensures Kept(MembersOf(members, f.occurrence), f) <==> Kept(members, f)
  {
    hide Chosen;
    var own := MembersOf(members, f.occurrence);
    forall k | 0 <= k < |members|
      ensures members[k].occurrence == f.occurrence ==> members[k] in own
    {
      assert members[k] in members;
    }
    forall k | 0 <= k < |own|
      ensures own[k] in members && own[k].occurrence == f.occurrence
    {
      assert own[k] in own;
    }
  }

  /** Within the combined limit, selecting over several inputs succeeds exactly when it succeeds on each alone. */
  lemma SelectsEachAlone(portable: string -> bool, d: Discovered, intents: seq<Intent>, members: seq<Wanted>)
    requires WithinLimit(d)
    ensures Succeeds(portable, d, intents, members)
       <==> forall o: nat | TakesPart(d, intents, members, o) ::
              Succeeds(portable, Alone(d, o), IntentsOf(intents, o), MembersOf(members, o))
  {
    hide Selectable, Admissible, Met, Answered, Found, WithinLimit, TakesPart;
    forall o: nat
      ensures WithinLimit(Alone(d, o))
    {
      LimitsAlone(d, o);
    }
    if Selectable(portable, d, intents, members) {
      forall o: nat | TakesPart(d, intents, members, o)
        ensures Selectable(portable, Alone(d, o), IntentsOf(intents, o), MembersOf(members, o))
      {
        TogetherThenAlone(portable, d, intents, members, o);
      }
    }
    if forall o: nat | TakesPart(d, intents, members, o) ::
         Succeeds(portable, Alone(d, o), IntentsOf(intents, o), MembersOf(members, o)) {
      AloneThenTogether(portable, d, intents, members);
    }
  }

  lemma FoundAlone(d: Discovered, w: Wanted)
    ensures Found(Alone(d, w.occurrence), w) <==> Found(d, w)
  {}

  lemma MetAlone(d: Discovered, i: Intent)
    ensures Met(Alone(d, i.occurrence), i) <==> Met(d, i)
  {
    hide EveryIncludeMatches;
    PathsAlone(d.files, i.occurrence);
  }

  lemma AnsweredAlone(d: Discovered, members: seq<Wanted>, f: File)
    requires f in d.files
    ensures Answered(Alone(d, f.occurrence), MembersOf(members, f.occurrence), f) <==> Answered(d, members, f)
  {
    hide Kept, Configured;
    forall g: File | g.occurrence == f.occurrence
      ensures Kept(MembersOf(members, f.occurrence), g) <==> Kept(members, g)
    {
      KeptAlone(members, g);
    }
  }

  lemma TogetherThenAlone(portable: string -> bool, d: Discovered, intents: seq<Intent>, members: seq<Wanted>, o: nat)
    requires Selectable(portable, d, intents, members)
    ensures Selectable(portable, Alone(d, o), IntentsOf(intents, o), MembersOf(members, o))
  {
    hide Admissible, Met, Answered, Found;
    var mine, own, wanted := Alone(d, o), IntentsOf(intents, o), MembersOf(members, o);
    forall k | 0 <= k < |wanted|
      ensures Found(mine, wanted[k])
    {
      assert wanted[k] in wanted;
      FoundAlone(d, wanted[k]);
    }
    forall k | 0 <= k < |own|
      ensures Met(mine, own[k])
    {
      assert own[k] in own;
      MetAlone(d, own[k]);
    }
    forall f | f in mine.files
      ensures Answered(mine, wanted, f) && Admissible(portable, f)
    {
      AnsweredAlone(d, members, f);
    }
  }

  lemma AloneThenTogether(portable: string -> bool, d: Discovered, intents: seq<Intent>, members: seq<Wanted>)
    requires forall o: nat | TakesPart(d, intents, members, o) ::
               Selectable(portable, Alone(d, o), IntentsOf(intents, o), MembersOf(members, o))
    ensures Selectable(portable, d, intents, members)
  {
    hide Admissible, Met, Answered, Found;
    forall k | 0 <= k < |members|
      ensures Found(d, members[k])
    {
      var w := members[k];
      assert w in members && TakesPart(d, intents, members, w.occurrence) && w in MembersOf(members, w.occurrence);
      FoundAlone(d, w);
    }
    forall k | 0 <= k < |intents|
      ensures Met(d, intents[k])
    {
      var i := intents[k];
      assert i in intents && TakesPart(d, intents, members, i.occurrence) && i in IntentsOf(intents, i.occurrence);
      MetAlone(d, i);
    }
    forall f | f in d.files
      ensures Answered(d, members, f) && Admissible(portable, f)
    {
      assert TakesPart(d, intents, members, f.occurrence) && f in Alone(d, f.occurrence).files;
      AnsweredAlone(d, members, f);
    }
  }

  /** ... its files are, in the discovery's order, those each input selects alone;
      and the charge is the whole discovery's. */
  lemma SelectsUnion(d: Discovered, members: seq<Wanted>, o: nat)
    ensures Filter(OwnFile(o), Selected(d, members).files)
         == Selected(Alone(d, o), MembersOf(members, o)).files
    ensures Selected(d, members).charge == Charge(d) && Selected(d, members).directories == d.directories
  {
    hide Kept;
    var own, kept, keptAlone := OwnFile(o), KeptBy(members), KeptBy(MembersOf(members, o));
    FiltersCommute(own, kept, d.files);
    FrozenFilter(o, Filter(kept, d.files));
    forall f: File | f.occurrence == o
      ensures kept(f) == keptAlone(f)
    {
      KeptAlone(members, f);
    }
    SameFilter(kept, keptAlone, Filter(own, d.files));
  }

  lemma {:induction false} SameFilter<T(!new)>(p: T -> bool, q: T -> bool, s: seq<T>)
    requires forall x :: x in s ==> p(x) == q(x)
    ensures Filter(p, s) == Filter(q, s)
  {
    if s != [] {
      assert s[0] in s;
      SameFilter(p, q, s[1..]);
    }
  }

  lemma {:induction false} FrozenFilter(o: nat, files: seq<File>)
    ensures Filter(OwnFile(o), Frozen(files)) == Frozen(Filter(OwnFile(o), files))
  {
    if files != [] {
      FrozenFilter(o, files[1..]);
      assert Frozen(files)[1..] == Frozen(files[1..]);
    }
  }

  lemma {:induction false} LimitAlone(files: seq<File>, o: nat)
    ensures |Filter(OwnFile(o), files)| <= |files|
    ensures FileBytes(Filter(OwnFile(o), files)) <= FileBytes(files)
  {
    if files != [] {
      LimitAlone(files[1..], o);
      var p := OwnFile(o);
      var all := Filter(p, files);
      assert if files[0].occurrence == o then all[0] == files[0] && all[1..] == Filter(p, files[1..])
             else all == Filter(p, files[1..]);
    }
  }

  lemma {:induction false} DirectoryLimitAlone(directories: seq<Directory>, o: nat)
    ensures |Filter(OwnDirectory(o), directories)| <= |directories|
    ensures DirectoryBytes(Filter(OwnDirectory(o), directories)) <= DirectoryBytes(directories)
  {
    if directories != [] {
      DirectoryLimitAlone(directories[1..], o);
      var p := OwnDirectory(o);
      var all := Filter(p, directories);
      assert if directories[0].occurrence == o then all[0] == directories[0] && all[1..] == Filter(p, directories[1..])
             else all == Filter(p, directories[1..]);
    }
  }

  /** When the combined limit passes, no input alone can fail it. */
  lemma LimitsAlone(d: Discovered, o: nat)
    ensures WithinLimit(d) ==> WithinLimit(Alone(d, o))
  {
    LimitAlone(d.files, o);
    DirectoryLimitAlone(d.directories, o);
  }

  // ----- the selection, step by step

  lemma {:induction false} FilterTwice<T(!new)>(p: T -> bool, q: T -> bool, both: T -> bool, s: seq<T>)
    requires forall x :: both(x) <==> p(x) && q(x)
    ensures Filter(q, Filter(p, s)) == Filter(both, s)
  {
    if s != [] {
      FilterTwice(p, q, both, s[1..]);
      FilterConcat(q, if p(s[0]) then [s[0]] else [], Filter(p, s[1..]));
    }
  }

  lemma FilterAnother(d: Discovered, members: seq<Wanted>, k: nat)
    requires k < |members|
    ensures Filter((f: File) => Spared(f, members[k]), Filter(KeptBy(members[..k]), d.files))
         == Filter(KeptBy(members[..k + 1]), d.files)
  {
    hide Chosen, Spared;
    var p, q, both := KeptBy(members[..k]), (f: File) => Spared(f, members[k]), KeptBy(members[..k + 1]);
    forall f: File
      ensures both(f) <==> p(f) && q(f)
    {
      assert forall j :: 0 <= j < k + 1 ==> members[..k + 1][j] == if j < k then members[..k][j] else members[k];
    }
    FilterTwice(p, q, both, d.files);
  }

  /** The first loop over the files: admissibility, and the occurrences that asked for something. */
  method CheckFiles(portable: string -> bool, files: seq<File>)
    returns (error: Option<SelectError>, requested: seq<nat>)
    ensures error == None <==> forall f :: f in files ==> Admissible(portable, f)
    ensures error.Some? ==>
            exists i :: 0 <= i < |files| && !Admissible(portable, files[i])
                                        && error.value == (if files[i].exactRemote then Limit else Layout)
                                        && forall j :: 0 <= j < i ==> Admissible(portable, files[j])
    ensures error == None ==>
            forall o :: o in requested <==> exists f :: f in files && Configured(f) && f.occurrence == o
  {
    hide PathIsBounded;
    requested := [];
    for i := 0 to |files|
      invariant forall j :: 0 <= j < i ==> Admissible(portable, files[j])
      invariant forall o :: o in requested
                  <==> exists j :: 0 <= j < i && Configured(files[j]) && files[j].occurrence == o
    {
      var file := files[i];
      if Configured(file) {
        if file.exactRemote {
          if !PathIsBounded(file.path) {
            assert file in files && !Admissible(portable, file);
            return Some(Limit), requested;
          }
        } else if !portable(file.path) {
          assert file in files && !Admissible(portable, file);
          return Some(Layout), requested;
        }
        if file.occurrence !in requested {
          requested := requested + [file.occurrence];
        }
      }
    }
    error := None;
  }

  method CheckIntents(d: Discovered, intents: seq<Intent>) returns (ok: bool)
    ensures ok <==> forall k :: 0 <= k < |intents| ==> Met(d, intents[k])
  {
    hide EveryIncludeMatches;
    for k := 0 to |intents|
      invariant forall j :: 0 <= j < k ==> Met(d, intents[j])
    {
      var met := AllIncludesMatch(intents[k].selection, PathsOf(d.files, intents[k].occurrence));
      if !met {
        return false;
      }
    }
    ok := true;
  }

  method RetainChosen(d: Discovered) returns (files: seq<File>)
    ensures files == Filter(KeptBy([]), d.files)
  {
    hide SelectionMatches;
    files := [];
    for i := 0 to |d.files|
      invariant files == Filter(KeptBy([]), d.files[..i])
    {
      var file := d.files[i];
      var chosen := true;
      if file.selection.Some? {
        chosen := MatchesPath(file.selection.value, file.path);
      }
      FilterConcat(KeptBy([]), d.files[..i], [file]);
      assert d.files[..i + 1] == d.files[..i] + [file];
      if chosen {
        files := files + [file];
      }
    }
    assert d.files[..|d.files|] == d.files;
  }

  method Retain(d: Discovered, members: seq<Wanted>) returns (files: seq<File>)
    ensures files == Filter(KeptBy(members), d.files)
  {
    hide Filter, Chosen, Spared;
    files := RetainChosen(d);
    assert members[..0] == [];
    for k := 0 to |members|
      invariant files == Filter(KeptBy(members[..k]), d.files)
    {
      FilterAnother(d, members, k);
      files := Filter((f: File) => Spared(f, members[k]), files);
    }
    assert members[..|members|] == members;
  }

  /** `select_paths`. */
  method SelectPaths(portable: string -> bool, d: Discovered, intents: seq<Intent>, members: seq<Wanted>)
    returns (r: Result<Inventory, SelectError>)
    ensures r.Ok? <==> Succeeds(portable, d, intents, members)
    ensures r.Ok? ==> r.value == Selected(d, members)
    ensures !WithinLimit(d) ==> r == Err(Limit)
    ensures WithinLimit(d) && (exists k :: 0 <= k < |members| && !Found(d, members[k])) ==> r == Err(MissingMember)
    ensures WithinLimit(d) && (forall k :: 0 <= k < |members| ==> Found(d, members[k]))
            && (exists f :: f in d.files && !Admissible(portable, f)) ==>
              r.Err? && exists i :: 0 <= i < |d.files|
                         && !Admissible(portable, d.files[i])
                         && r.error == (if d.files[i].exactRemote then Limit else Layout)
                         && forall j :: 0 <= j < i ==> Admissible(portable, d.files[j])
    ensures WithinLimit(d) && (forall k :: 0 <= k < |members| ==> Found(d, members[k]))
            && (forall f :: f in d.files ==> Admissible(portable, f)) && !Selectable(portable, d, intents, members) ==>
              r == Err(PathSelection)
  {
    hide Met, Admissible, Kept, Found, Charge;
    if !WithinLimit(d) {
      return Err(Limit);
    }
    for k := 0 to |members|
      invariant forall j :: 0 <= j < k ==> Found(d, members[j])
    {
      if !Found(d, members[k]) {
        return Err(MissingMember);
      }
    }
    var error, requested := CheckFiles(portable, d.files);
    if error.Some? {
      return Err(error.value);
    }
    var met := CheckIntents(d, intents);
    if !met {
      return Err(PathSelection);
    }
    var files := Retain(d, members);
    for k := 0 to |requested|
      invariant forall j :: 0 <= j < k ==> exists g :: g in files && g.occurrence == requested[j]
    {
      if !exists g :: g in files && g.occurrence == requested[k] {
        assert requested[k] in requested;
        return Err(PathSelection);
      }
    }
    forall f | f in d.files
      ensures Answered(d, members, f)
    {
      if Configured(f) { assert f.occurrence in requested; }
    }
    r := Ok(Inventory(Frozen(files), d.directories, Charge(d)));
  }

  // ----- the budget of a discovery

  /** One input: the text it retains itself, and what its complete scope turns out to be. */
  datatype Input = Input(retained: nat, scope: Discovered)

  function Retained(inputs: seq<Input>): nat
  {
    if inputs == [] then 0 else inputs[0].retained + Retained(inputs[1..])
  }

  function Entries(inputs: seq<Input>): nat
  {
    if inputs == [] then 0
    else Entries(inputs[..|inputs| - 1]) + |inputs[|inputs| - 1].scope.files| + |inputs[|inputs| - 1].scope.directories|
  }

  function EntryBytes(inputs: seq<Input>): nat
  {
    if inputs == [] then 0 else EntryBytes(inputs[..|inputs| - 1]) + Charge(inputs[|inputs| - 1].scope)
  }

  function Together(inputs: seq<Input>): Discovered
  {
    if inputs == [] then Discovered([], [])
    else
      var front, last := Together(inputs[..|inputs| - 1]), inputs[|inputs| - 1].scope;
      Discovered(front.files + last.files, front.directories + last.directories)
  }

  /** At every input: the entries so far, and the inputs still to come, fit the allowance. */
  ghost predicate BudgetAllows(inputs: seq<Input>)
  {
    && Entries(inputs) <= MAX_FILES
    && forall i :: 0 <= i <= |inputs| ==> EntryBytes(inputs[..i]) + Retained(inputs[i..]) <= MAX_METADATA_BYTES
  }

  /** One input is allowed its own text and its entries, each within the limit, since its own charge is handed back. */
  lemma LoneInputIsAllowed(input: Input)
    ensures BudgetAllows([input])
       <==> && |input.scope.files| + |input.scope.directories| <= 128
            && input.retained <= 1048576
            && FileBytes(input.scope.files) + DirectoryBytes(input.scope.directories) <= 1048576
  {
    var inputs := [input];
    assert inputs[..0] == [] && inputs[0..] == inputs && inputs[..1] == inputs && inputs[1..] == [];
    assert Retained(inputs) == input.retained && Entries(inputs) == |input.scope.files| + |input.scope.directories|;
    assert EntryBytes(inputs) == Charge(input.scope);
    assert EntryBytes(inputs[..0]) + Retained(inputs[0..]) == input.retained;
    assert EntryBytes(inputs[..1]) + Retained(inputs[1..]) == Charge(input.scope);
    if input.retained <= MAX_METADATA_BYTES && Charge(input.scope) <= MAX_METADATA_BYTES {
      forall i | 0 <= i <= |inputs|
        ensures EntryBytes(inputs[..i]) + Retained(inputs[i..]) <= MAX_METADATA_BYTES
      {
        if i != 0 { assert i == 1; }
      }
    }
  }

  /** Inputs whose text and entries fit together are allowed in any order. */
  lemma FittingInputsAreAllowed(inputs: seq<Input>)
    requires Entries(inputs) <= MAX_FILES && Retained(inputs) + EntryBytes(inputs) <= MAX_METADATA_BYTES
    ensures BudgetAllows(inputs)
  {
    forall i | 0 <= i <= |inputs|
      ensures EntryBytes(inputs[..i]) + Retained(inputs[i..]) <= MAX_METADATA_BYTES
    {
      EntryBytesGrow(inputs, i);
      RetainedShrinks(inputs, i);
    }
  }

  lemma {:induction false} EntryBytesGrow(inputs: seq<Input>, i: nat)
    requires i <= |inputs|
    ensures EntryBytes(inputs[..i]) <= EntryBytes(inputs)
    decreases |inputs| - i
  {
    if i == |inputs| {
      assert inputs[..i] == inputs;
    } else {
      EntryBytesGrow(inputs, i + 1);
      assert inputs[..i + 1][..i] == inputs[..i];
    }
  }

  lemma {:induction false} RetainedShrinks(inputs: seq<Input>, i: nat)
    requires i <= |inputs|
    ensures Retained(inputs[i..]) <= Retained(inputs)
  {
    if i > 0 {
      RetainedShrinks(inputs[1..], i - 1);
      assert inputs[1..][i - 1..] == inputs[i..];
    } else {
      assert inputs[0..] == inputs;
    }
  }

  class DiscoveryBudget {
    var files: nat
    var bytes: nat

    constructor (files: nat, bytes: nat)
      ensures this.files == files && this.bytes == bytes
    {
      this.files, this.bytes := files, bytes;
    }

    /** `reserve_entry`. */
    method ReserveEntry(retained: nat) returns (ok: bool)
      modifies this
      ensures ok <==> old(files) > 0 && retained <= old(bytes)
      ensures ok ==> files == old(files) - 1 && bytes == old(bytes) - retained
    {
      if files == 0 {
        return false;
      }
      files := files - 1;
      if retained > bytes {
        return false;
      }
      bytes := bytes - retained;
      ok := true;
    }

    /** The entries of one scope, in turn. */
    method ReserveScope(scope: Discovered) returns (ok: bool)
      modifies this
      ensures ok <==> |scope.files| + |scope.directories| <= old(files) && Charge(scope) <= old(bytes)
      ensures ok ==> files == old(files) - |scope.files| - |scope.directories| && bytes == old(bytes) - Charge(scope)
    {
      assert scope.files[0..] == scope.files && scope.directories[0..] == scope.directories;
      for i := 0 to |scope.files|
        invariant files == old(files) - i && FileBytes(scope.files[i..]) + old(bytes) == bytes + FileBytes(scope.files)
      {
        assert scope.files[i..][1..] == scope.files[i + 1..];
        var reserved := ReserveEntry(scope.files[i].retained);
        if !reserved {
          return false;
        }
      }
      for i := 0 to |scope.directories|
        invariant files == old(files) - |scope.files| - i
        invariant DirectoryBytes(scope.directories[i..]) + old(bytes) == bytes + Charge(scope)
      {
        assert scope.directories[i..][1..] == scope.directories[i + 1..];
        var reserved := ReserveEntry(scope.directories[i].retained);
        if !reserved {
          return false;
        }
      }
      ok := true;
    }
  }

  lemma {:induction false} BytesConcat(a: seq<File>, b: seq<File>, c: seq<Directory>, e: seq<Directory>)
    ensures FileBytes(a + b) == FileBytes(a) + FileBytes(b)
    ensures DirectoryBytes(c + e) == DirectoryBytes(c) + DirectoryBytes(e)
    decreases |a| + |c|
  {
    if a != [] {
      BytesConcat(a[1..], b, [], []);
      assert (a + b)[1..] == a[1..] + b;
    } else {
      assert a + b == b;
    }
    if c != [] {
      BytesConcat([], [], c[1..], e);
      assert (c + e)[1..] == c[1..] + e;
    } else {
      assert c + e == e;
    }
  }

  lemma {:induction false} TogetherCharge(inputs: seq<Input>)
    ensures Charge(Together(inputs)) == EntryBytes(inputs)
    ensures |Together(inputs).files| + |Together(inputs).directories| == Entries(inputs)
  {
    if inputs != [] {
      var front, last := inputs[..|inputs| - 1], inputs[|inputs| - 1].scope;
      TogetherCharge(front);
      BytesConcat(Together(front).files, last.files, Together(front).directories, last.directories);
    }
  }

  lemma {:induction false} EntriesGrow(inputs: seq<Input>, i: nat)
    requires i <= |inputs|
    ensures Entries(inputs[..i]) <= Entries(inputs)
    decreases |inputs| - i
  {
    if i == |inputs| {
      assert inputs[..i] == inputs;
    } else {
      EntriesGrow(inputs, i + 1);
      assert inputs[..i + 1][..i] == inputs[..i];
    }
  }

  /** A discovery within its budget cannot fail the inventory's limit. */
  lemma BudgetedIsWithinLimit(inputs: seq<Input>)
    requires BudgetAllows(inputs)
    ensures WithinLimit(Together(inputs))
  {
    TogetherCharge(inputs);
    assert inputs[..|inputs|] == inputs;
  }

  /** `resolve_inputs`, for the accounting: each input's own charge is handed back as its scope is reserved. */
  method ResolveInputs(inputs: seq<Input>) returns (r: Option<Discovered>)
    ensures r.Some? <==> BudgetAllows(inputs)
    ensures r.Some? ==> r.value == Together(inputs) && WithinLimit(r.value)
  {
    hide Charge, WithinLimit;
    var retained := Retained(inputs);
    assert inputs[..0] == [] && inputs[0..] == inputs;
    if retained > MAX_METADATA_BYTES {
      assert EntryBytes(inputs[..0]) + Retained(inputs[0..]) > MAX_METADATA_BYTES;
      return None;
    }
    var budget := new DiscoveryBudget(MAX_FILES, MAX_METADATA_BYTES - retained);
    var discovered := Discovered([], []);
    for i := 0 to |inputs|
      invariant fresh(budget)
      invariant discovered == Together(inputs[..i])
      invariant budget.files == MAX_FILES - Entries(inputs[..i])
      invariant budget.bytes == MAX_METADATA_BYTES - Retained(inputs[i..]) - EntryBytes(inputs[..i])
      invariant forall k :: 0 <= k <= i ==> EntryBytes(inputs[..k]) + Retained(inputs[k..]) <= MAX_METADATA_BYTES
    {
      var input := inputs[i];
      assert inputs[i..][1..] == inputs[i + 1..] && inputs[..i + 1][..i] == inputs[..i];
      EntriesGrow(inputs, i + 1);
      budget.bytes := budget.bytes + input.retained;
      var reserved := budget.ReserveScope(input.scope);
      if !reserved {
        assert || Entries(inputs[..i + 1]) > MAX_FILES
               || EntryBytes(inputs[..i + 1]) + Retained(inputs[i + 1..]) > MAX_METADATA_BYTES;
        return None;
      }
      discovered := Discovered(discovered.files + input.scope.files, discovered.directories + input.scope.directories);
    }
    assert inputs[..|inputs|] == inputs;
    BudgetedIsWithinLimit(inputs);
    r := Some(discovered);
  }
}
