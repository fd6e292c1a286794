/**
 `bind`: the passes that take an interpreter off the original checkout before
 any test code is imported.
 */
module Bind {
  import opened Common
  import opened Paths
  import opened SourceBinding
  import opened Finders

  /** A module setuptools generated for an editable installation; None marks an attribute of the wrong type. */
  datatype Editable = Editable(
    name: string,
    mapping: Option<seq<(string, string)>>,
    finder: Option<string -> Option<Spec>>,
    namespaces: Option<seq<(string, seq<string>)>>)

  /** What listing a directory's modules yields; the origin is None when no spec or origin is found. */
  datatype Listed = Listed(name: string, isPackage: bool, origin: Option<string>)

  predicate HasLocal(b: Roots, mapping: seq<(string, string)>) {
    exists i :: 0 <= i < |mapping| && Local(b, mapping[i].1)
  }

  ghost predicate MappingClean(b: Roots, mapping: seq<(string, string)>) {
    forall i :: 0 <= i < |mapping| ==> !Local(b, mapping[i].1)
  }

  ghost predicate NamespacesClean(b: Roots, namespaces: seq<(string, seq<string>)>) {
    forall i :: 0 <= i < |namespaces| ==> NoneLocal(b, namespaces[i].1)
  }

  /** Same keys, every value mapped. */
  ghost predicate MappingRebound(b: Roots, before: seq<(string, string)>, after: seq<(string, string)>) {
    && |after| == |before|
    && forall i :: 0 <= i < |before| ==> after[i].0 == before[i].0 && Mapped(b, before[i].1, false) == Ok(after[i].1)
  }

  ghost predicate NamespacesRebound(b: Roots, before: seq<(string, seq<string>)>, after: seq<(string, seq<string>)>) {
    && |after| == |before|
    && forall i :: 0 <= i < |before| ==> after[i].0 == before[i].0 && MapAll(b, before[i].1) == Ok(after[i].1)
  }

  /** What a successful pass makes of one generated finder module. */
  ghost predicate Rebound(b: Roots, before: Editable, after: Editable) {
    && before.mapping.Some?
    && (!HasLocal(b, before.mapping.value) ==> after == before)
    && (HasLocal(b, before.mapping.value) ==>
          && before.namespaces.Some? && after.mapping.Some? && after.namespaces.Some?
          && after.name == before.name && after.finder == before.finder
          && MappingRebound(b, before.mapping.value, after.mapping.value)
          && NamespacesRebound(b, before.namespaces.value, after.namespaces.value))
  }

  /** A local entry can be rebound: it and the place its module is imported from have a place in the candidate. */
  predicate EntryBindable(b: Roots, finder: string -> Option<Spec>, entry: (string, string)) {
    Local(b, entry.1) ==>
      Mapped(b, LocationOf(b, finder, entry.0, entry.1), true).Ok? && Mapped(b, entry.1, false).Ok?
  }

  predicate EntriesBindable(b: Roots, finder: string -> Option<Spec>, mapping: seq<(string, string)>) {
    forall i :: 0 <= i < |mapping| ==> EntryBindable(b, finder, mapping[i])
  }

  predicate NamespacesBindable(b: Roots, namespaces: seq<(string, seq<string>)>) {
    forall i :: 0 <= i < |namespaces| ==> AllMappable(b, namespaces[i].1)
  }

  /** What the pass over one generated finder module asks of it. */
  predicate Bindable(b: Roots, ed: Editable) {
    && ed.mapping.Some?
    && (HasLocal(b, ed.mapping.value) ==>
          && ed.finder.Some? && EntriesBindable(b, ed.finder.value, ed.mapping.value)
          && ed.namespaces.Some? && NamespacesBindable(b, ed.namespaces.value))
  }

  /** A finder that had a local mapping ends without any local path; any other keeps its mapping clean. */
  lemma ReboundIsClean(b: Roots, before: Editable, after: Editable)
    requires Rebound(b, before, after)
    ensures after.mapping.Some? && MappingClean(b, after.mapping.value)
    ensures HasLocal(b, before.mapping.value) ==> NamespacesClean(b, after.namespaces.value)
  {
    if HasLocal(b, before.mapping.value) {
      forall i | 0 <= i < |after.mapping.value|
        ensures !Local(b, after.mapping.value[i].1)
      {
        MappedIsProjection(b, before.mapping.value[i].1, false, false);
      }
      forall i | 0 <= i < |after.namespaces.value|
        ensures NoneLocal(b, after.namespaces.value[i].1)
      {
        MapAllIsProjection(b, before.namespaces.value[i].1);
      }
    }
  }

  /** A local namespace path survives exactly when the same finder had no local mapping to trigger the pass. */
  lemma NamespaceLeftBehindExactly(b: Roots, before: Editable, after: Editable)
    requires Rebound(b, before, after) && before.namespaces.Some?
    ensures after.namespaces.Some?
    ensures !NamespacesClean(b, after.namespaces.value)
       <==> !HasLocal(b, before.mapping.value) && !NamespacesClean(b, before.namespaces.value)
  {
    ReboundIsClean(b, before, after);
  }

  /** A finder with a namespace in the original and no mapping: the pass succeeds and changes nothing. */
  lemma NamespaceLeftBehind()
    ensures var b := Checkouts(Apart);
            var ed := Editable("__editable___x_finder", Some([]), None, Some([("ns", ["/orig/tool"])]));
            Rebound(b, ed, ed) && !NamespacesClean(b, ed.namespaces.value)
  {
    var b := Checkouts(Apart);
    ToolSpelled();
    MappedTo(b, "/orig/tool", "/cand/tool", ["tool"]);
    var namespaces := [("ns", ["/orig/tool"])];
    assert Local(b, namespaces[0].1[0]);
  }

  /** Where a local entry's module is imported from: the installed finder's answer, or the entry itself. */
  function LocationOf(b: Roots, finder: string -> Option<Spec>, key: string, value: string): string {
    var spec := finder(key);
    if spec.Some? && spec.value.origin.Some? then
      if spec.value.search.Some? then b.fs.dirname(spec.value.origin.value) else spec.value.origin.value
    else value
  }

  function AfterEntry(
    b: Roots, finder: string -> Option<Spec>, entry: (string, string), locations: map<string, string>)
    : map<string, string> {
    if Local(b, entry.1) then locations[entry.0 := LocationOf(b, finder, entry.0, entry.1)] else locations
  }

  /** The known locations after a mapping's local entries have been added, in order. */
  function AfterMapping(
    b: Roots, finder: string -> Option<Spec>, mapping: seq<(string, string)>, locations: map<string, string>)
    : map<string, string> {
    if mapping == [] then locations else
    var n := |mapping| - 1;
    AfterEntry(b, finder, mapping[n], AfterMapping(b, finder, mapping[..n], locations))
  }

  function AfterEditable(b: Roots, ed: Editable, locations: map<string, string>): map<string, string> {
    if ed.mapping.Some? && ed.finder.Some?
    then AfterMapping(b, ed.finder.value, ed.mapping.value, locations)
    else locations
  }

  function AfterEditables(b: Roots, eds: seq<Editable>, locations: map<string, string>): map<string, string> {
    if eds == [] then locations else
    var n := |eds| - 1;
    AfterEditable(b, eds[n], AfterEditables(b, eds[..n], locations))
  }

  lemma {:induction false} NothingLocalNothingAdded(
    b: Roots, finder: string -> Option<Spec>, mapping: seq<(string, string)>, locations: map<string, string>)
    requires !HasLocal(b, mapping)
    ensures AfterMapping(b, finder, mapping, locations) == locations
  {
    if mapping != [] {
      var n := |mapping| - 1;
      assert forall i :: 0 <= i < n ==> mapping[..n][i] == mapping[i];
      NothingLocalNothingAdded(b, finder, mapping[..n], locations);
    }
  }

  /** One entry: a local one must have an importable location in the candidate, and is replaced. */
  function RebindEntry(b: Roots, finder: string -> Option<Spec>, entry: (string, string))
    : (r: Result<(string, string), Refusal>)
    ensures r.Ok? <==> EntryBindable(b, finder, entry)
    ensures r.Ok? ==> r.value.0 == entry.0 && Mapped(b, entry.1, false) == Ok(r.value.1)
  {
    if !Local(b, entry.1) then Ok(entry) else
    var checked := Mapped(b, LocationOf(b, finder, entry.0, entry.1), true);
    if checked.Fail? then Fail(checked.error) else
    match Mapped(b, entry.1, false)
    case Fail(r) => Fail(r)
    case Ok(value) => Ok((entry.0, value))
  }

  function RebindNamespace(b: Roots, entry: (string, seq<string>)): (r: Result<(string, seq<string>), Refusal>)
    ensures r.Ok? ==> r.value.0 == entry.0 && MapAll(b, entry.1) == Ok(r.value.1)
    ensures r.Fail? ==> MapAll(b, entry.1).Fail?
  {
    match MapAll(b, entry.1)
    case Fail(r) => Fail(r)
    case Ok(values) => Ok((entry.0, values))
  }

  // ------------------------------------------------------------------
  // Loops that replace every element or refuse

  function Fold<A, S>(note: (A, S) -> S, xs: seq<A>, start: S): S {
    if xs == [] then start else note(xs[|xs| - 1], Fold(note, xs[..|xs| - 1], start))
  }

  predicate Replaced<A, B(==)>(f: A -> Result<B, Refusal>, xs: seq<A>, ys: seq<B>) {
    |ys| == |xs| && forall i :: 0 <= i < |xs| ==> f(xs[i]) == Ok(ys[i])
  }

  /** Replaces each element in turn, noting it first, up to the first refusal. */
  method ReplaceAll<A, B(==), S>(f: A -> Result<B, Refusal>, note: (A, S) -> S, xs: seq<A>, start: S)
    returns (r: Result<seq<B>, Refusal>, acc: S)
    ensures r.Ok? <==> forall i :: 0 <= i < |xs| ==> f(xs[i]).Ok?
    ensures r.Ok? ==> Replaced(f, xs, r.value) && acc == Fold(note, xs, start)
  {
    acc := start;
    var out: seq<B> := [];
    var index := 0;
    while index < |xs|
      invariant 0 <= index <= |xs| && |out| == index
      invariant forall i :: 0 <= i < index ==> f(xs[i]) == Ok(out[i])
      invariant acc == Fold(note, xs[..index], start)
    {
      assert xs[..index + 1][..index] == xs[..index];
      acc := note(xs[index], acc);
      var y := f(xs[index]);
      if y.Fail? {
        return Fail(y.error), acc;
      }
      out := out + [y.value];
      index := index + 1;
    }
    assert xs[..index] == xs;
    r := Ok(out);
  }

  /** `[f(x) for x in xs]` */
  method ReplaceEach<A, B(==)>(f: A -> Result<B, Refusal>, xs: seq<A>) returns (r: Result<seq<B>, Refusal>)
    ensures r.Ok? <==> forall i :: 0 <= i < |xs| ==> f(xs[i]).Ok?
    ensures r.Ok? ==> Replaced(f, xs, r.value)
  {
    var nothing;
    r, nothing := ReplaceAll(f, (x, acc) => acc, xs, ());
  }

  lemma {:induction false} AfterMappingFolds(
    b: Roots, finder: string -> Option<Spec>, mapping: seq<(string, string)>, locations: map<string, string>)
    ensures Fold((entry, found) => AfterEntry(b, finder, entry, found), mapping, locations)
         == AfterMapping(b, finder, mapping, locations)
  {
    if mapping != [] { AfterMappingFolds(b, finder, mapping[..|mapping| - 1], locations); }
  }

  method RebindMapping(
    b: Roots, mapping: seq<(string, string)>, finder: string -> Option<Spec>, locations: map<string, string>)
    returns (r: Result<seq<(string, string)>, Refusal>, found: map<string, string>)
    ensures r.Ok? <==> EntriesBindable(b, finder, mapping)
    ensures r.Ok? ==> MappingRebound(b, mapping, r.value)
    ensures r.Ok? ==> found == AfterMapping(b, finder, mapping, locations)
  {
    var f := entry => RebindEntry(b, finder, entry);
    r, found := ReplaceAll(f, (entry, known) => AfterEntry(b, finder, entry, known), mapping, locations);
    assert forall i :: 0 <= i < |mapping| ==> (f(mapping[i]).Ok? <==> EntryBindable(b, finder, mapping[i]));
    AfterMappingFolds(b, finder, mapping, locations);
  }

  method RebindNamespaces(b: Roots, namespaces: seq<(string, seq<string>)>)
    returns (r: Result<seq<(string, seq<string>)>, Refusal>)
    ensures r.Ok? <==> NamespacesBindable(b, namespaces)
    ensures r.Ok? ==> NamespacesRebound(b, namespaces, r.value)
  {
    var f := entry => RebindNamespace(b, entry);
    r := ReplaceEach(f, namespaces);
    forall i | 0 <= i < |namespaces| ensures f(namespaces[i]).Ok? <==> AllMappable(b, namespaces[i].1) {
      MapAllMaps(b, namespaces[i].1);
    }
  }

  method RebindEditable(b: Roots, before: Editable, locations: map<string, string>)
    returns (r: Result<Editable, Refusal>, found: map<string, string>)
    ensures r.Ok? <==> Bindable(b, before)
    ensures r.Ok? ==> Rebound(b, before, r.value)
    ensures r.Ok? ==> found == AfterEditable(b, before, locations)
  {
    found := locations;
    if before.mapping.None? {
      return Fail(MechanismUnsupported), found;
    }
    if !HasLocal(b, before.mapping.value) {
      if before.finder.Some? { NothingLocalNothingAdded(b, before.finder.value, before.mapping.value, locations); }
      return Ok(before), found;
    }
    if before.finder.None? {
      return Fail(MechanismUnsupported), found;
    }
    var mapping;
    mapping, found := RebindMapping(b, before.mapping.value, before.finder.value, locations);
    if mapping.Fail? {
      return Fail(mapping.error), found;
    }
    if before.namespaces.None? {
      return Fail(MechanismUnsupported), found;
    }
    var namespaces := RebindNamespaces(b, before.namespaces.value);
    if namespaces.Fail? {
      return Fail(namespaces.error), found;
    }
    r := Ok(before.(mapping := Some(mapping.value), namespaces := Some(namespaces.value)));
  }

  // ------------------------------------------------------------------
  // CandidateFinder

  const INIT := "__init__.py"

  function CandidateFind(b: Roots, locations: map<string, string>, name: string): Found {
    if name !in locations then NoSpec else
    match Mapped(b, locations[name], true)
    case Fail(r) => Raises(r)
    case Ok(location) =>
      if b.fs.isDir(location) then
        var origin := Join(location, INIT);
        if !b.fs.isFile(origin) then
          if b.fs.isFile(Join(locations[name], INIT)) then Raises(SourceMissing)
          else FoundSpec(Spec(None, Some([location]), false, OtherLoader("namespace")))
        else if !EndsWith(origin, SOURCE_SUFFIX) then Raises(MechanismUnsupported)
        else SpecFromFile(b, origin, None, Some([location]))
      else if !EndsWith(location, SOURCE_SUFFIX) then Raises(MechanismUnsupported)
      else SpecFromFile(b, location, None, None)
  }

  function CandidateFinder(b: Roots, locations: map<string, string>): Finder {
    Finder(true, (name, path) => CandidateFind(b, locations, name))
  }

  /**
   The candidate's own finder searches only mapped directories, and its module
   file is one of them or lies directly in one.
   */
  lemma CandidateStaysMapped(b: Roots, locations: map<string, string>, name: string)
    requires CandidateFind(b, locations, name).FoundSpec?
    ensures name in locations
    ensures var spec := CandidateFind(b, locations, name).spec;
            && (spec.search.Some? ==> |spec.search.value| == 1 && NoneLocal(b, spec.search.value))
            && (spec.search.None? ==> spec.origin.Some? && !Local(b, spec.origin.value))
            && (spec.origin.Some? && spec.search.Some? ==> spec.origin.value == Join(spec.search.value[0], INIT))
  {
    MappedIsProjection(b, locations[name], true, true);
  }

  /**
   What a known module resolves to: a package by its `__init__.py`, a directory
   without one as a namespace unless the original had one, and any other file
   only as Python source.
   */
  lemma CandidateFinds(b: Roots, locations: map<string, string>, name: string, location: string)
    requires name in locations && Mapped(b, locations[name], true) == Ok(location)
    ensures var r := CandidateFind(b, locations, name);
            var init := Join(location, "__init__.py");
            && (b.fs.isDir(location) && b.fs.isFile(init) ==>
                  && r.FoundSpec? && r.spec.hasLocation
                  && r.spec.origin == Some(init) && r.spec.search == Some([location]))
            && (b.fs.isDir(location) && !b.fs.isFile(init) ==>
                  if b.fs.isFile(Join(locations[name], "__init__.py")) then r == Raises(SourceMissing)
                  else r.FoundSpec? && r.spec.origin.None? && r.spec.search == Some([location]) && !r.spec.hasLocation)
            && (!b.fs.isDir(location) && EndsWith(location, ".py") ==>
                  r.FoundSpec? && r.spec.origin == Some(location) && r.spec.search.None? && r.spec.hasLocation)
            && (!b.fs.isDir(location) && !EndsWith(location, ".py") ==> r == Raises(MechanismUnsupported))
  {
    JoinEnds(location);
  }

  lemma JoinEnds(location: string)
    ensures EndsWith(Join(location, INIT), ".py")
  {
    var init := Join(location, INIT);
    assert INIT[|INIT| - 3..] == ".py";
    assert init[|init| - |INIT|..] == INIT;
    assert init[|init| - 3..] == INIT[|INIT| - 3..];
  }

  // ------------------------------------------------------------------
  // The whole of bind

  /** The search path entries that lead to the original checkout. */
  function LocalEntries(b: Roots, path: seq<string>): seq<string> {
    if path == [] then [] else
    var n := |path| - 1;
    LocalEntries(b, path[..n]) + (if path[n] != "" && Local(b, path[n]) then [path[n]] else [])
  }

  function AfterListed(root: string, listed: seq<Listed>, locations: map<string, string>): map<string, string> {
    if listed == [] then locations else
    var n := |listed| - 1;
    var done := AfterListed(root, listed[..n], locations);
    if listed[n].origin.None? then done
    else done[listed[n].name := if listed[n].isPackage then Join(root, listed[n].name) else listed[n].origin.value]
  }

  /** Where the modules under the given roots are imported from. */
  function AfterRoots(roots: seq<string>, listing: string -> seq<Listed>): map<string, string> {
    if roots == [] then map[] else
    var n := |roots| - 1;
    AfterListed(roots[n], listing(roots[n]), AfterRoots(roots[..n], listing))
  }

  // ------------------------------------------------------------------
  // What the known locations are

  /** Where an entry of a listing puts a module, if it has an origin. */
  predicate Puts(root: string, item: Listed, name: string, location: string) {
    && item.name == name && item.origin.Some?
    && location == if item.isPackage then Join(root, name) else item.origin.value
  }

  predicate Names(item: Listed, name: string) {
    item.name == name && item.origin.Some?
  }

  /** One list of modules puts each name where its last entry with an origin says. */
  lemma {:induction false} ListedPlaces(root: string, listed: seq<Listed>, locations: map<string, string>, i: nat)
    requires i < |listed| && listed[i].origin.Some?
    requires forall j :: i < j < |listed| ==> !Names(listed[j], listed[i].name)
    ensures var r, name := AfterListed(root, listed, locations), listed[i].name;
            name in r && Puts(root, listed[i], name, r[name])
  {
    var n := |listed| - 1;
    if i < n {
      assert !Names(listed[n], listed[i].name);
      assert forall j :: 0 <= j < n ==> listed[..n][j] == listed[j];
      ListedPlaces(root, listed[..n], locations, i);
    }
  }

  /** Names it does not list stay where they were. */
  lemma {:induction false} UnlistedStays(
    root: string, listed: seq<Listed>, locations: map<string, string>, name: string)
    requires forall j :: 0 <= j < |listed| ==> !Names(listed[j], name)
    ensures var r := AfterListed(root, listed, locations);
            (name in r <==> name in locations) && (name in r ==> r[name] == locations[name])
  {
    if listed != [] {
      var n := |listed| - 1;
      assert !Names(listed[n], name);
      assert forall j :: 0 <= j < n ==> listed[..n][j] == listed[j];
      UnlistedStays(root, listed[..n], locations, name);
    }
  }

  /** Roots are listed in order: a name is where the last root that lists it puts it. */
  lemma {:induction false} RootsPlace(roots: seq<string>, listing: string -> seq<Listed>, k: nat, i: nat)
    requires k < |roots| && i < |listing(roots[k])| && listing(roots[k])[i].origin.Some?
    requires forall j :: i < j < |listing(roots[k])| ==> !Names(listing(roots[k])[j], listing(roots[k])[i].name)
    requires forall l, j :: k < l < |roots| && 0 <= j < |listing(roots[l])| ==>
               !Names(listing(roots[l])[j], listing(roots[k])[i].name)
    ensures var r, item := AfterRoots(roots, listing), listing(roots[k])[i];
            item.name in r && Puts(roots[k], item, item.name, r[item.name])
  {
    var n := |roots| - 1;
    var before := AfterRoots(roots[..n], listing);
    if k == n {
      ListedPlaces(roots[n], listing(roots[n]), before, i);
    } else {
      assert forall l :: 0 <= l < n ==> roots[..n][l] == roots[l];
      RootsPlace(roots[..n], listing, k, i);
      UnlistedStays(roots[n], listing(roots[n]), before, listing(roots[k])[i].name);
    }
  }

  lemma {:induction false} LocalEntriesAre(b: Roots, path: seq<string>, entry: string)
    ensures entry in LocalEntries(b, path) <==> entry in path && entry != "" && Local(b, entry)
  {
    if path != [] {
      var n := |path| - 1;
      LocalEntriesAre(b, path[..n], entry);
      assert path == path[..n] + [path[n]];
    }
  }

  /** A local entry of a generated mapping. */
  predicate Redirects(b: Roots, entry: (string, string), name: string) {
    entry.0 == name && Local(b, entry.1)
  }

  /** Where a generated finder says a module is: its directory for a package, its file, or the entry itself. */
  predicate IsImportedFrom(b: Roots, finder: string -> Option<Spec>, entry: (string, string), location: string) {
    match finder(entry.0)
    case Some(Spec(Some(origin), search, _, _)) =>
      location == if search.Some? then b.fs.dirname(origin) else origin
    case _ => location == entry.1
  }

  lemma EntryPlaces(b: Roots, finder: string -> Option<Spec>, entry: (string, string), locations: map<string, string>)
    ensures var r := AfterEntry(b, finder, entry, locations);
            && (Local(b, entry.1) ==> entry.0 in r && IsImportedFrom(b, finder, entry, r[entry.0]))
            && forall name :: !Redirects(b, entry, name) ==>
                 (name in r <==> name in locations) && (name in r ==> r[name] == locations[name])
  {
  }

  /** One mapping puts each name where its last local entry says. */
  lemma {:induction false} MappedPlaces(
    b: Roots, finder: string -> Option<Spec>, mapping: seq<(string, string)>, locations: map<string, string>, i: nat)
    requires i < |mapping| && Local(b, mapping[i].1)
    requires forall j :: i < j < |mapping| ==> !Redirects(b, mapping[j], mapping[i].0)
    ensures var r, name := AfterMapping(b, finder, mapping, locations), mapping[i].0;
            name in r && IsImportedFrom(b, finder, mapping[i], r[name])
  {
    var n := |mapping| - 1;
    EntryPlaces(b, finder, mapping[n], AfterMapping(b, finder, mapping[..n], locations));
    if i < n {
      assert !Redirects(b, mapping[n], mapping[i].0);
      assert forall j :: 0 <= j < n ==> mapping[..n][j] == mapping[j];
      MappedPlaces(b, finder, mapping[..n], locations, i);
    }
  }

  /** Names without a local entry stay where they were. */
  lemma {:induction false} UnmappedStays(
    b: Roots, finder: string -> Option<Spec>, mapping: seq<(string, string)>, locations: map<string, string>,
    name: string)
    requires forall j :: 0 <= j < |mapping| ==> !Redirects(b, mapping[j], name)
    ensures var r := AfterMapping(b, finder, mapping, locations);
            (name in r <==> name in locations) && (name in r ==> r[name] == locations[name])
  {
    if mapping != [] {
      var n := |mapping| - 1;
      EntryPlaces(b, finder, mapping[n], AfterMapping(b, finder, mapping[..n], locations));
      assert !Redirects(b, mapping[n], name);
      assert forall j :: 0 <= j < n ==> mapping[..n][j] == mapping[j];
      UnmappedStays(b, finder, mapping[..n], locations, name);
    }
  }

  class Interpreter {
    var sysPath: seq<string>
    var modules: seq<(string, Option<string>)>  // sys.modules, with each module's __file__
    var editables: seq<Editable>                // those whose name marks a generated finder
    var metaPath: seq<Finder>
    var locations: map<string, string>

    constructor (
      sysPath: seq<string>, modules: seq<(string, Option<string>)>, editables: seq<Editable>, metaPath: seq<Finder>)
      ensures this.sysPath == sysPath && this.modules == modules && this.editables == editables
      ensures this.metaPath == metaPath && locations == map[]
    {
      this.sysPath, this.modules, this.editables, this.metaPath := sysPath, modules, editables, metaPath;
      locations := map[];
    }

    ghost predicate ModulesClean(b: Roots)
      reads this
    {
      forall i :: 0 <= i < |modules| && modules[i].1.Some? ==> !Local(b, modules[i].1.value)
    }

    method CheckModules(b: Roots) returns (ok: bool)
      ensures ok <==> ModulesClean(b)
    {
      var index := 0;
      while index < |modules|
        invariant 0 <= index <= |modules|
        invariant forall i :: 0 <= i < index && modules[i].1.Some? ==> !Local(b, modules[i].1.value)
      {
        if modules[index].1.Some? && Local(b, modules[index].1.value) {
          return false;
        }
        index := index + 1;
      }
      return true;
    }

    /** Collects where the modules under each local search path entry are imported from. */
    method ListRoots(b: Roots, listing: string -> seq<Listed>) returns (roots: seq<string>)
      requires locations == map[]
      modifies this`locations
      ensures roots == LocalEntries(b, sysPath)
      ensures locations == AfterRoots(roots, listing)
    {
      roots := [];
      var index := 0;
      while index < |sysPath|
        invariant 0 <= index <= |sysPath|
        invariant roots == LocalEntries(b, sysPath[..index])
        invariant locations == AfterRoots(roots, listing)
      {
        assert sysPath[..index + 1][..index] == sysPath[..index];
        var entry := sysPath[index];
        if entry != "" && Local(b, entry) {
          assert (roots + [entry])[..|roots|] == roots;
          roots := roots + [entry];
          AddListed(entry, listing(entry));
        }
        index := index + 1;
      }
      assert sysPath[..index] == sysPath;
    }

    method AddListed(root: string, listed: seq<Listed>)
      modifies this`locations
      ensures locations == AfterListed(root, listed, old(locations))
    {
      var index := 0;
      while index < |listed|
        invariant 0 <= index <= |listed|
        invariant locations == AfterListed(root, listed[..index], old(locations))
      {
        assert listed[..index + 1][..index] == listed[..index];
        var item := listed[index];
        if item.origin.Some? {
          locations := locations[item.name := if item.isPackage then Join(root, item.name) else item.origin.value];
        }
        index := index + 1;
      }
      assert listed[..index] == listed;
    }

    method RebindEditables(b: Roots) returns (error: Option<Refusal>)
      modifies this`editables, this`locations
      ensures error.None? <==> AllBindable(b, old(editables))
      ensures error.None? ==> AllRebound(b, old(editables), editables)
      ensures error.None? ==> locations == AfterEditables(b, old(editables), old(locations))
    {
      var out: seq<Editable> := [];
      var index := 0;
      while index < |editables|
        invariant 0 <= index <= |editables| && editables == old(editables)
        invariant AllBindable(b, editables[..index]) && AllRebound(b, editables[..index], out)
        invariant locations == AfterEditables(b, editables[..index], old(locations))
      {
        var ed := editables[index];
        var r, found := RebindEditable(b, ed, locations);
        EditableStep(b, editables, index, out, old(locations));
        locations := found;
        if r.Fail? {
          return Some(r.error);
        }
        out := out + [r.value];
        index := index + 1;
      }
      assert editables[..index] == editables;
      editables := out;
      return None;
    }

    method CheckDistributions(b: Roots, sources: seq<string>, roots: seq<string>) returns (ok: bool)
      ensures ok <==> AllCovered(b, sources, roots, locations)
    {
      var index := 0;
      while index < |sources|
        invariant 0 <= index <= |sources|
        invariant forall i :: 0 <= i < index && Local(b, sources[i]) ==> Covered(b, sources[i], roots, locations)
      {
        if Local(b, sources[index])
           && !(exists i :: 0 <= i < |roots| && Within(RealPath(b, roots[i]), RealPath(b, sources[index])))
           && !(exists k :: k in locations && Within(RealPath(b, locations[k]), RealPath(b, sources[index]))) {
          return false;
        }
        index := index + 1;
      }
      return true;
    }

    method RebindPath(b: Roots) returns (error: Option<Refusal>)
      modifies this`sysPath
      ensures error.None? <==> PathBindable(b, old(sysPath))
      ensures error.None? ==> PathRebound(b, old(sysPath), sysPath)
    {
      var out := ReplaceEach(entry => PathEntry(b, entry), sysPath);
      if out.Fail? {
        return Some(out.error);
      }
      forall i | 0 <= i < |sysPath| ensures PathEntryRebound(b, sysPath[i], out.value[i]) {
        PathEntryMapped(b, sysPath[i]);
      }
      sysPath := out.value;
      return None;
    }

    /** What `bind` asks of the interpreter when the roots are distinct. */
    ghost predicate Accepts(b: Roots, listing: string -> seq<Listed>, sources: seq<string>)
      reads this
    {
      var entries := LocalEntries(b, sysPath);
      && ModulesClean(b) && AllBindable(b, editables) && PathBindable(b, sysPath)
      && AllCovered(b, sources, entries, AfterEditables(b, editables, AfterRoots(entries, listing)))
    }

    /**
     `bind` succeeds for distinct roots if and only if no preloaded module is
     local, every generated finder and search path entry can be mapped and every
     local editable distribution is covered; then every search path entry but the
     inserted working directory and empty ones is mapped, every generated finder
     is rebound, and the guard comes first.
     */
    method Bind(
      b: Roots, cwd: string, listing: string -> seq<Listed>, sources: seq<string>)
      returns (error: Option<Refusal>)
      modifies this
      ensures b.original == b.candidate ==>
        error.None? && sysPath == [cwd] + old(sysPath) && unchanged(`modules, `editables, `metaPath, `locations)
      ensures b.original != b.candidate ==> (error.None? <==> old(Accepts(b, listing, sources)))
      ensures b.original != b.candidate && error.None? ==>
        && old(ModulesClean(b))
        && sysPath != [] && sysPath[0] == cwd && PathRebound(b, old(sysPath), sysPath[1..])
        && AllRebound(b, old(editables), editables)
        && AllCovered(b, sources, LocalEntries(b, old(sysPath)), locations)
        && locations == AfterEditables(b, old(editables), AfterRoots(LocalEntries(b, old(sysPath)), listing))
        && metaPath == Installed(b, locations, old(metaPath))
    {
      if b.original == b.candidate {
        sysPath := [cwd] + sysPath;
        return None;
      }
      var clean := CheckModules(b);
      if !clean {
        return Some(MechanismUnsupported);
      }
      locations := map[];
      var roots := ListRoots(b, listing);
      error := RebindEditables(b);
      if error.Some? {
        return;
      }
      var covered := CheckDistributions(b, sources, roots);
      if !covered {
        return Some(MechanismUnsupported);
      }
      error := RebindPath(b);
      if error.Some? {
        return;
      }
      assert ([cwd] + sysPath)[1..] == sysPath;
      sysPath := [cwd] + sysPath;
      metaPath := Installed(b, locations, metaPath);
      return None;
    }
  }

  /** A search path entry or a known module location lies within the distribution's source. */
  ghost predicate Covered(b: Roots, source: string, entries: seq<string>, locations: map<string, string>) {
    || (exists i :: 0 <= i < |entries| && Within(RealPath(b, entries[i]), RealPath(b, source)))
    || (exists k :: k in locations && Within(RealPath(b, locations[k]), RealPath(b, source)))
  }

  /** The place lies within the source, by real paths. */
  predicate LiesIn(b: Roots, place: string, source: string) {
    IsUnder(b.fs.resolve(place), b.fs.resolve(source))
  }

  /** Covered exactly when a local search path entry or the location of a known module lies in it. */
  lemma CoveredExactly(b: Roots, source: string, entries: seq<string>, locations: map<string, string>)
    ensures Covered(b, source, entries, locations) <==>
      || (exists i :: 0 <= i < |entries| && LiesIn(b, entries[i], source))
      || (exists k :: k in locations && LiesIn(b, locations[k], source))
  {
    forall place: string ensures Within(RealPath(b, place), RealPath(b, source)) <==> LiesIn(b, place, source) {
      WithinIsUnder(b.fs.resolve(place), b.fs.resolve(source));
    }
  }

  ghost predicate AllCovered(b: Roots, sources: seq<string>, entries: seq<string>, locations: map<string, string>) {
    forall i :: 0 <= i < |sources| && Local(b, sources[i]) ==> Covered(b, sources[i], entries, locations)
  }

  /** One more module: bindable and rebound so far, and with it. */
  lemma EditableStep(b: Roots, eds: seq<Editable>, index: nat, out: seq<Editable>, start: map<string, string>)
    requires index < |eds| && AllBindable(b, eds[..index]) && AllRebound(b, eds[..index], out)
    ensures AllBindable(b, eds[..index + 1]) <==> Bindable(b, eds[index])
    ensures !Bindable(b, eds[index]) ==> !AllBindable(b, eds)
    ensures forall after :: Rebound(b, eds[index], after) ==> AllRebound(b, eds[..index + 1], out + [after])
    ensures AfterEditables(b, eds[..index + 1], start)
         == AfterEditable(b, eds[index], AfterEditables(b, eds[..index], start))
  {
    var more := eds[..index + 1];
    assert more[..index] == eds[..index] && more[index] == eds[index];
    assert forall i :: 0 <= i < index ==> more[i] == eds[..index][i];
  }

  ghost predicate AllRebound(b: Roots, before: seq<Editable>, after: seq<Editable>) {
    |after| == |before| && forall i :: 0 <= i < |before| ==> Rebound(b, before[i], after[i])
  }

  /** `mapped(entry) if entry else entry` */
  function PathEntry(b: Roots, entry: string): Result<string, Refusal> {
    if entry == "" then Ok("") else Mapped(b, entry, true)
  }

  lemma PathEntryMapped(b: Roots, entry: string)
    requires PathEntry(b, entry).Ok?
    ensures PathEntryRebound(b, entry, PathEntry(b, entry).value)
  {
    if entry != "" { MappedIsProjection(b, entry, true, true); }
  }

  ghost predicate AllBindable(b: Roots, eds: seq<Editable>) {
    forall i :: 0 <= i < |eds| ==> Bindable(b, eds[i])
  }

  ghost predicate PathBindable(b: Roots, path: seq<string>) {
    forall i :: 0 <= i < |path| ==> PathEntry(b, path[i]).Ok?
  }

  ghost predicate PathRebound(b: Roots, before: seq<string>, after: seq<string>) {
    |after| == |before| && forall i :: 0 <= i < |before| ==> PathEntryRebound(b, before[i], after[i])
  }

  ghost predicate PathEntryRebound(b: Roots, before: string, after: string) {
    if before == "" then after == "" else Mapped(b, before, true) == Ok(after) && !Local(b, after)
  }

  /** The chain after both insertions: guard, candidate finder, then what was there. */
  function Installed(b: Roots, locations: map<string, string>, chain: seq<Finder>): seq<Finder> {
    var finders := [CandidateFinder(b, locations)] + chain;
    [GuardFinder(b, finders)] + finders
  }

  /**
   After binding, an import resolves to a path of the original checkout if and
   only if the first spec found is one the guard maps without being able to
   rebuild it, or completes with a directory of the original.
   */
  lemma InstalledChainLeaksExactly(
    b: Roots, locations: map<string, string>, chain: seq<Finder>, name: string, path: Option<seq<string>>)
    ensures var found := Resolve([CandidateFinder(b, locations)] + chain, name, path);
            var r := Resolve(Installed(b, locations, chain), name, path);
            r.FoundSpec? && !SpecClean(b, r.spec)
            <==> found.FoundSpec? && (LosesLoader(b, found.spec) || CompletesLocally(b, found.spec))
  {
    GuardedChainLeaksExactly(b, [CandidateFinder(b, locations)] + chain, name, path);
  }
}
