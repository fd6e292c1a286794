/**
 Import resolution: arbitrary finder chains, the guard that keeps them off the
 original checkout, and the falsifier's finder in front of them.
 */
module Finders {
  import opened Common
  import opened Paths
  import opened SourceBinding

  datatype Loader = SourceFileLoader | FaultLoader | OtherLoader(name: string)

  /** A module spec: where the module is, where its submodules are searched, and who loads it. */
  datatype Spec = Spec(origin: Option<string>, search: Option<seq<string>>, hasLocation: bool, loader: Loader)

  datatype Found = NoSpec | FoundSpec(spec: Spec) | Raises(error: Refusal)

  /** A finder without `find_spec` is skipped; any other may answer anything, as a function of its question. */
  datatype Finder = Finder(hasFindSpec: bool, find: (string, Option<seq<string>>) -> Found)

  /** How the import system asks a chain: the first answer that is not None. */
  function Resolve(chain: seq<Finder>, name: string, path: Option<seq<string>>): Found {
    if chain == [] then NoSpec
    else if !chain[0].hasFindSpec then Resolve(chain[1..], name, path)
    else
      var r := chain[0].find(name, path);
      if r.NoSpec? then Resolve(chain[1..], name, path) else r
  }

  predicate Passes(finder: Finder, name: string, path: Option<seq<string>>) {
    finder.hasFindSpec ==> finder.find(name, path).NoSpec?
  }

  /** The first finder of the chain that does not pass. */
  predicate AnswersFirst(chain: seq<Finder>, i: nat, name: string, path: Option<seq<string>>) {
    && i < |chain| && !Passes(chain[i], name, path)
    && forall j :: 0 <= j < i ==> Passes(chain[j], name, path)
  }

  /** A chain answers as its first finder that does not pass, and None only if all of them pass. */
  lemma {:induction false} FirstAnswers(chain: seq<Finder>, name: string, path: Option<seq<string>>)
    ensures Resolve(chain, name, path).NoSpec? <==> forall i :: 0 <= i < |chain| ==> Passes(chain[i], name, path)
    ensures forall i: nat ::
      AnswersFirst(chain, i, name, path) ==> Resolve(chain, name, path) == chain[i].find(name, path)
  {
    if chain != [] {
      FirstAnswers(chain[1..], name, path);
      assert forall i :: 0 < i < |chain| ==> chain[1..][i - 1] == chain[i];
      forall i: nat | AnswersFirst(chain, i, name, path)
        ensures Resolve(chain, name, path) == chain[i].find(name, path)
      {
        if i > 0 {
          assert Passes(chain[0], name, path);
          forall j | 0 <= j < i - 1 ensures Passes(chain[1..][j], name, path) { assert chain[1..][j] == chain[j + 1]; }
          assert AnswersFirst(chain[1..], i - 1, name, path);
        }
      }
    }
  }

  // ------------------------------------------------------------------
  // importlib's spec_from_file_location

  const SOURCE_SUFFIX := ".py"
  const BYTECODE_SUFFIX := ".pyc"

  predicate IsExtension(b: Roots, location: string) {
    exists i :: 0 <= i < |b.extensionSuffixes| && EndsWith(location, b.extensionSuffixes[i])
  }

  /** The loader importlib picks by suffix, if it knows one. */
  function LoaderFor(b: Roots, location: string): Option<Loader> {
    if IsExtension(b, location) then Some(OtherLoader("ExtensionFileLoader"))
    else if EndsWith(location, SOURCE_SUFFIX) then Some(SourceFileLoader)
    else if EndsWith(location, BYTECODE_SUFFIX) then Some(OtherLoader("SourcelessFileLoader"))
    else None
  }

  /** An empty search list is given the directory of the file. */
  function Completed(location: string, search: Option<seq<string>>): Option<seq<string>> {
    if search == Some([]) && location != "" then Some([SplitHead(location)]) else search
  }

  /** Without a loader of its own and without a known suffix there is no spec. */
  function SpecFromFile(b: Roots, location: string, loader: Option<Loader>, search: Option<seq<string>>): Found {
    var chosen := if loader.Some? then loader else LoaderFor(b, location);
    if chosen.None? then NoSpec
    else FoundSpec(Spec(Some(location), Completed(location, search), true, chosen.value))
  }

  // ------------------------------------------------------------------
  // BindingGuard

  function MapSearch(b: Roots, search: Option<seq<string>>): Result<Option<seq<string>>, Refusal> {
    if search.None? then Ok(None) else
    match MapAll(b, search.value)
    case Ok(entries) => Ok(Some(entries))
    case Fail(r) => Fail(r)
  }

  predicate OriginLocal(b: Roots, spec: Spec) {
    spec.origin.Some? && spec.origin.value != "" && Local(b, spec.origin.value)
  }

  predicate SearchLocal(b: Roots, spec: Spec) {
    spec.search.Some? && exists i :: 0 <= i < |spec.search.value| && Local(b, spec.search.value[i])
  }

  /** What the guard makes of the first spec found. */
  function GuardSpec(b: Roots, spec: Spec): Found {
    if OriginLocal(b, spec) then
      if !spec.loader.SourceFileLoader? then Raises(MechanismUnsupported) else
      match Mapped(b, spec.origin.value, true)
      case Fail(r) => Raises(r)
      case Ok(origin) =>
        (match MapSearch(b, spec.search)
         case Fail(r) => Raises(r)
         case Ok(search) => SpecFromFile(b, origin, None, search))
    else if SearchLocal(b, spec) then
      match MapSearch(b, spec.search)
      case Fail(r) => Raises(r)
      case Ok(search) => FoundSpec(spec.(search := search))
    else FoundSpec(spec)
  }

  function Guarded(b: Roots, finders: seq<Finder>, name: string, path: Option<seq<string>>): Found {
    var r := Resolve(finders, name, path);
    if r.FoundSpec? then GuardSpec(b, r.spec) else r
  }

  /** No path in the spec leads to the original checkout. */
  predicate SpecClean(b: Roots, spec: Spec) {
    && (spec.origin.Some? && spec.origin.value != "" ==> !Local(b, spec.origin.value))
    && (spec.search.Some? ==> NoneLocal(b, spec.search.value))
  }

  /** A local source spec all of whose paths have a place in the candidate. */
  predicate Mappable(b: Roots, spec: Spec) {
    && OriginLocal(b, spec) && spec.loader.SourceFileLoader?
    && Mapped(b, spec.origin.value, true).Ok? && MapSearch(b, spec.search).Ok?
  }

  /** Mappable, but importlib knows no loader for the suffix of the mapped file: the guard answers None. */
  predicate LosesLoader(b: Roots, spec: Spec) {
    Mappable(b, spec) && LoaderFor(b, Mapped(b, spec.origin.value, true).value).None?
  }

  /** Mappable with an empty search list, which is completed with a directory that links back to the original. */
  predicate CompletesLocally(b: Roots, spec: Spec) {
    && Mappable(b, spec) && !LosesLoader(b, spec)
    && spec.search == Some([]) && Local(b, SplitHead(Mapped(b, spec.origin.value, true).value))
  }

  /** `BindingGuard.find_spec`, asking the finders in turn. */
  method GuardFindSpec(b: Roots, finders: seq<Finder>, name: string, path: Option<seq<string>>) returns (r: Found)
    ensures r == Guarded(b, finders, name, path)
    ensures r.FoundSpec? ==> Resolve(finders, name, path).FoundSpec?
    ensures r.FoundSpec? ==> (SpecClean(b, r.spec) <==> !CompletesLocally(b, Resolve(finders, name, path).spec))
  {
    var index := 0;
    while index < |finders|
      invariant 0 <= index <= |finders|
      invariant Resolve(finders[index..], name, path) == Resolve(finders, name, path)
    {
      var finder := finders[index];
      assert finders[index..][1..] == finders[index + 1..];
      index := index + 1;
      if finder.hasFindSpec {
        var found := finder.find(name, path);
        if found.Raises? {
          return found;
        }
        if found.FoundSpec? {
          GuardedSpecClean(b, found.spec);
          return GuardSpec(b, found.spec);
        }
      }
    }
    return NoSpec;
  }

  /** Mapping keeps a search list empty or not, and what it yields is clean. */
  lemma SearchMapped(b: Roots, search: Option<seq<string>>)
    requires MapSearch(b, search).Ok?
    ensures var mapped := MapSearch(b, search).value;
            && (mapped.Some? ==> NoneLocal(b, mapped.value))
            && (mapped == Some([]) <==> search == Some([]))
  {
    if search.Some? { MapAllIsProjection(b, search.value); }
  }

  /**
   The guard answers None exactly for a mappable spec it cannot rebuild; what
   it answers is clean but for a completed list.
   */
  lemma GuardedSpecClean(b: Roots, spec: Spec)
    ensures GuardSpec(b, spec).NoSpec? <==> LosesLoader(b, spec)
    ensures GuardSpec(b, spec).FoundSpec? ==> (SpecClean(b, GuardSpec(b, spec).spec) <==> !CompletesLocally(b, spec))
  {
    if MapSearch(b, spec.search).Ok? { SearchMapped(b, spec.search); }
    if Mappable(b, spec) {
      var origin := Mapped(b, spec.origin.value, true).value;
      MappedIsProjection(b, spec.origin.value, true, true);
      assert origin != "" by { assert Absolute(b.candidate) != ""; }
      if !LosesLoader(b, spec) && spec.search == Some([]) {
        assert GuardSpec(b, spec).spec.search == Some([SplitHead(origin)]);
        assert [SplitHead(origin)][0] == SplitHead(origin);
      }
    }
  }

  /**
   For every finder chain and file system: a guarded lookup refuses, finds
   nothing, or finds a spec without a local path, unless it completed an empty
   search list with a local directory; and a spec that was already clean comes
   back unchanged.
   */
  lemma GuardNeverResolvesToOriginal(b: Roots, finders: seq<Finder>, name: string, path: Option<seq<string>>)
    ensures var found, r := Resolve(finders, name, path), Guarded(b, finders, name, path);
            && (r.FoundSpec? ==> found.FoundSpec? && (SpecClean(b, r.spec) <==> !CompletesLocally(b, found.spec)))
            && (found.FoundSpec? && SpecClean(b, found.spec) ==> r == found)
            && (r.NoSpec? <==> found.NoSpec? || (found.FoundSpec? && LosesLoader(b, found.spec)))
            && (!found.FoundSpec? ==> r == found)
  {
    var found := Resolve(finders, name, path);
    if found.FoundSpec? { GuardedSpecClean(b, found.spec); }
  }

  /** The loader goes by suffix: extension modules first, then source, then bytecode. */
  ghost predicate LoadsBySuffix(b: Roots, location: string, loader: Loader) {
    if IsExtension(b, location) then loader == OtherLoader("ExtensionFileLoader")
    else if EndsWith(location, ".py") then loader == SourceFileLoader
    else EndsWith(location, ".pyc") && loader == OtherLoader("SourcelessFileLoader")
  }

  /** There is a loader exactly for the known suffixes, and it is the one of the suffix. */
  lemma LoaderForMeans(b: Roots, location: string)
    ensures LoaderFor(b, location).Some? <==>
      IsExtension(b, location) || EndsWith(location, ".py") || EndsWith(location, ".pyc")
    ensures LoaderFor(b, location).Some? ==> LoadsBySuffix(b, location, LoaderFor(b, location).value)
  {
  }

  /** A local source spec, rebuilt in the candidate: each path where it maps to. */
  ghost predicate Rebuilt(b: Roots, before: Spec, after: Spec) {
    && before.origin.Some? && after.origin.Some? && after.hasLocation
    && Mapped(b, before.origin.value, true) == Ok(after.origin.value)
    && LoadsBySuffix(b, after.origin.value, after.loader)
    && (after.search.None? <==> before.search.None?)
    && (before.search.Some? && before.search.value != [] ==> MapsTo(b, before.search.value, after.search.value))
    && (before.search == Some([]) ==> after.search == Some([SplitHead(after.origin.value)]))
  }

  /** Only the search locations are mapped, each where it maps to. */
  ghost predicate Redirected(b: Roots, before: Spec, after: Spec) {
    && after.origin == before.origin && after.hasLocation == before.hasLocation && after.loader == before.loader
    && before.search.Some? && after.search.Some? && MapsTo(b, before.search.value, after.search.value)
  }

  predicate SearchMappable(b: Roots, spec: Spec) {
    spec.search.Some? ==> AllMappable(b, spec.search.value)
  }

  /** What the guard answers to a spec, by where its paths lead. */
  ghost predicate Answered(b: Roots, spec: Spec, r: Found) {
    if OriginLocal(b, spec) then
      if !spec.loader.SourceFileLoader? then r == Raises(MechanismUnsupported)
      else if !Mapped(b, spec.origin.value, true).Ok? || !SearchMappable(b, spec) then r.Raises?
      else r.NoSpec? || (r.FoundSpec? && Rebuilt(b, spec, r.spec))
    else if SearchLocal(b, spec) then
      if SearchMappable(b, spec) then r.FoundSpec? && Redirected(b, spec, r.spec) else r.Raises?
    else r == FoundSpec(spec)
  }

  lemma RebuiltFromFile(b: Roots, spec: Spec)
    requires Mappable(b, spec) && GuardSpec(b, spec).FoundSpec?
    ensures Rebuilt(b, spec, GuardSpec(b, spec).spec)
  {
    var origin := Mapped(b, spec.origin.value, true).value;
    assert origin != "" by { assert Absolute(b.candidate) != ""; }
    if spec.search.Some? { MapAllMaps(b, spec.search.value); }
    assert GuardSpec(b, spec) == SpecFromFile(b, origin, None, MapSearch(b, spec.search).value);
  }

  lemma GuardSpecAnswers(b: Roots, spec: Spec)
    ensures Answered(b, spec, GuardSpec(b, spec))
  {
    if spec.search.Some? { MapAllMaps(b, spec.search.value); }
    assert MapSearch(b, spec.search).Ok? <==> SearchMappable(b, spec);
    if Mappable(b, spec) && GuardSpec(b, spec).FoundSpec? { RebuiltFromFile(b, spec); }
  }

  /**
   Where a guarded answer points: the first spec found unchanged, its paths
   mapped one by one, or a refusal, exactly by whether they are local and can be
   mapped.
   */
  lemma GuardAnswersByMapping(b: Roots, finders: seq<Finder>, name: string, path: Option<seq<string>>)
    ensures var found, r := Resolve(finders, name, path), Guarded(b, finders, name, path);
            if found.FoundSpec? then Answered(b, found.spec, r) else r == found
  {
    var found := Resolve(finders, name, path);
    if found.FoundSpec? { GuardSpecAnswers(b, found.spec); }
  }

  // ------------------------------------------------------------------
  // FaultFinder

  /** `FaultFinder.find_spec` in front of `others`; `absolute` is the declared module's real path. */
  function FaultFind(
    b: Roots, absolute: Components, others: seq<Finder>, name: string, path: Option<seq<string>>): Found {
    var r := Resolve(others, name, path);
    if !r.FoundSpec? then r
    else if !r.spec.hasLocation || r.spec.origin.None? then NoSpec
    else if b.fs.resolve(r.spec.origin.value) != absolute then NoSpec
    else SpecFromFile(b, r.spec.origin.value, Some(FaultLoader), r.spec.search)
  }

  function FaultFinder(b: Roots, absolute: Components, others: seq<Finder>): Finder {
    Finder(true, (name, path) => FaultFind(b, absolute, others, name, path))
  }

  predicate IsDeclared(b: Roots, absolute: Components, spec: Spec) {
    spec.hasLocation && spec.origin.Some? && b.fs.resolve(spec.origin.value) == absolute
  }

  /**
   Putting the fault finder first changes no resolution except that the
   declared module's spec, and no other, is given the fault loader, and its
   search list, if empty, the directory of its file.
   */
  lemma FaultFinderIsTransparent(
    b: Roots, absolute: Components, others: seq<Finder>, name: string, path: Option<seq<string>>)
    ensures var plain := Resolve(others, name, path);
            var r := Resolve([FaultFinder(b, absolute, others)] + others, name, path);
            && (!plain.FoundSpec? ==> r == plain)
            && (plain.FoundSpec? ==>
                  && r.FoundSpec?
                  && (!IsDeclared(b, absolute, plain.spec) ==> r == plain)
                  && (IsDeclared(b, absolute, plain.spec) ==>
                        && r.spec.origin == plain.spec.origin && r.spec.loader == FaultLoader && r.spec.hasLocation
                        && r.spec.search == if plain.spec.search == Some([]) && plain.spec.origin != Some("")
                                            then Some([SplitHead(plain.spec.origin.value)]) else plain.spec.search))
  {
    var chain := [FaultFinder(b, absolute, others)] + others;
    assert chain[1..] == others;
  }

  function GuardFinder(b: Roots, finders: seq<Finder>): Finder {
    Finder(true, (name, path) => Guarded(b, finders, name, path))
  }

  /**
   A chain whose guard comes first answers as the guard does, except that the
   unguarded finders behind it are asked about a spec the guard maps but cannot
   rebuild, and answer with the original's.
   */
  lemma GuardFirst(b: Roots, finders: seq<Finder>, name: string, path: Option<seq<string>>)
    ensures var found := Resolve(finders, name, path);
            Resolve([GuardFinder(b, finders)] + finders, name, path)
            == if found.FoundSpec? && LosesLoader(b, found.spec) then found else Guarded(b, finders, name, path)
  {
    var chain := [GuardFinder(b, finders)] + finders;
    assert chain[1..] == finders;
    GuardNeverResolvesToOriginal(b, finders, name, path);
  }

  /** With the guard first, exactly which first specs lead to a path of the original checkout. */
  lemma GuardedChainLeaksExactly(b: Roots, finders: seq<Finder>, name: string, path: Option<seq<string>>)
    ensures var found := Resolve(finders, name, path);
            var r := Resolve([GuardFinder(b, finders)] + finders, name, path);
            r.FoundSpec? && !SpecClean(b, r.spec)
            <==> found.FoundSpec? && (LosesLoader(b, found.spec) || CompletesLocally(b, found.spec))
  {
    GuardFirst(b, finders, name, path);
    GuardNeverResolvesToOriginal(b, finders, name, path);
  }

  /**
   Guard and fault finder together resolve the same names to the same files as
   the guarded chain alone, mark only the declared module, and reach the
   original checkout exactly when that chain does or the declared module's empty
   search list is completed with a directory of the original.
   */
  lemma FaultOverGuard(b: Roots, absolute: Components, finders: seq<Finder>, name: string, path: Option<seq<string>>)
    ensures var others := [GuardFinder(b, finders)] + finders;
            var plain := Resolve(others, name, path);
            var r := Resolve([FaultFinder(b, absolute, others)] + others, name, path);
            && (r.FoundSpec? <==> plain.FoundSpec?)
            && (r.FoundSpec? ==> r.spec.origin == plain.spec.origin)
            && (r.FoundSpec? && r.spec != plain.spec ==> IsDeclared(b, absolute, plain.spec))
            && (r.FoundSpec? ==>
                  (!SpecClean(b, r.spec) <==>
                     || !SpecClean(b, plain.spec)
                     || (IsDeclared(b, absolute, plain.spec) && plain.spec.search == Some([])
                         && plain.spec.origin != Some("") && Local(b, SplitHead(plain.spec.origin.value)))))
  {
    var others := [GuardFinder(b, finders)] + finders;
    var plain := Resolve(others, name, path);
    FaultFinderIsTransparent(b, absolute, others, name, path);
    if plain.FoundSpec? && IsDeclared(b, absolute, plain.spec) && plain.spec.search == Some([])
        && plain.spec.origin != Some("") {
      var head := SplitHead(plain.spec.origin.value);
      assert Resolve([FaultFinder(b, absolute, others)] + others, name, path).spec.search == Some([head]);
      assert [head][0] == head;
    }
  }

  // ------------------------------------------------------------------
  // Inputs on which the original is reached

  /** Two checkouts side by side, with everything present. */
  function Checkouts(resolve: string -> Components): Roots {
    var fs := FileSystem(resolve, path => true, path => false, path => false, path => path);
    Roots(fs, ["orig"], ["cand"], [], [".so"])
  }

  function Answering(spec: Spec): Finder {
    Finder(true, (name, path) => FoundSpec(spec))
  }

  function Apart(path: string): Components {
    if path == "/orig/tool" then ["orig", "tool"] else ["cand", "tool"]
  }

  /** A source file without a suffix is mapped, not rebuilt, and then imported from the original. */
  lemma SuffixlessSourceLeaks(name: string, path: Option<seq<string>>)
    ensures var b := Checkouts(Apart);
            var spec := Spec(Some("/orig/tool"), None, true, SourceFileLoader);
            && LosesLoader(b, spec) && !SpecClean(b, spec)
            && Resolve([GuardFinder(b, [Answering(spec)])] + [Answering(spec)], name, path) == FoundSpec(spec)
  {
    var b := Checkouts(Apart);
    var spec := Spec(Some("/orig/tool"), None, true, SourceFileLoader);
    ToolSpelled();
    MappedTo(b, "/orig/tool", "/cand/tool", ["tool"]);
    NoLoaderForTool(b);
    GuardFirst(b, [Answering(spec)], name, path);
  }

  lemma ToolSpelled()
    ensures "/orig/tool" != "/cand/tool"
    ensures ["orig"] + ["tool"] == ["orig", "tool"] && ["cand"] + ["tool"] == ["cand", "tool"]
    ensures Absolute(["cand", "tool"]) == "/cand/tool"
  {
    Spelling("cand", "tool");
    assert "/orig/tool"[1] != "/cand/tool"[1];
  }

  lemma NoLoaderForTool(b: Roots)
    requires b.extensionSuffixes == [".so"]
    ensures LoaderFor(b, "/cand/tool").None?
  {
    var s := "/cand/tool";
    assert s[|s| - 1] == 'l';
    assert ".so"[2] == 'o' && SOURCE_SUFFIX[2] == 'y' && BYTECODE_SUFFIX[3] == 'c';
    assert !EndsWith(s, ".so") && !EndsWith(s, SOURCE_SUFFIX) && !EndsWith(s, BYTECODE_SUFFIX);
  }

  function Linked(path: string): Components {
    if path == "/orig/p/m.py" then ["orig", "p", "m.py"]
    else if path == "/cand/p" then ["orig", "q"]
    else ["cand", "m.py"]
  }

  /** A package file whose directory links back to the original: completing its empty search list leads there. */
  lemma LinkedPackageLeaks()
    ensures var b := Checkouts(Linked);
            var spec := Spec(Some("/orig/p/m.py"), Some([]), true, SourceFileLoader);
            CompletesLocally(b, spec) && GuardSpec(b, spec).FoundSpec? && !SpecClean(b, GuardSpec(b, spec).spec)
  {
    PackageSpelled();
    LinkedPackageLeaksIn(Checkouts(Linked));
  }

  lemma LinkedPackageLeaksIn(b: Roots)
    requires b.original == ["orig"] && b.candidate == ["cand"] && b.installations == []
    requires b.extensionSuffixes == [".so"]
    requires b.fs.resolve("/orig/p/m.py") == ["orig", "p", "m.py"] && b.fs.resolve("/cand/p") == ["orig", "q"]
    requires b.fs.resolve("/cand/p/m.py") == ["cand", "m.py"] && b.fs.present("/cand/p/m.py")
    ensures var spec := Spec(Some("/orig/p/m.py"), Some([]), true, SourceFileLoader);
            CompletesLocally(b, spec) && GuardSpec(b, spec).FoundSpec? && !SpecClean(b, GuardSpec(b, spec).spec)
  {
    var spec := Spec(Some("/orig/p/m.py"), Some([]), true, SourceFileLoader);
    PackageSpelled();
    MappedTo(b, "/orig/p/m.py", "/cand/p/m.py", ["p", "m.py"]);
    LoaderForPackage(b);
    LocalLink(b, "/cand/p");
    GuardedSpecClean(b, spec);
  }

  lemma PackageSpelled()
    ensures "/orig/p/m.py" != "/cand/p/m.py" && "/orig/p/m.py" != "/cand/p" && "/cand/p/m.py" != "/cand/p"
    ensures ["orig"] + ["p", "m.py"] == ["orig", "p", "m.py"]
    ensures Absolute(["cand"] + ["p", "m.py"]) == "/cand/p/m.py" && SplitHead("/cand/p/m.py") == "/cand/p"
  {
    var rest := ["p", "m.py"];
    Spelling("p", "m.py");
    assert (["cand"] + rest)[1..] == rest;
    assert Flat(["cand"] + rest) == [SEP] + "cand" + Flat(rest);
    HeadOfFile("/cand/p", "m.py");
    assert "/cand/p" + [SEP] + "m.py" == "/cand/p/m.py";
    assert "/orig/p/m.py"[1] != "/cand/p/m.py"[1] && "/orig/p/m.py"[1] != "/cand/p"[1]
        && |"/cand/p"| != |"/cand/p/m.py"|;
  }

  lemma LoaderForPackage(b: Roots)
    requires b.extensionSuffixes == [".so"]
    ensures LoaderFor(b, "/cand/p/m.py").Some?
  {
    assert EndsWith("/cand/p/m.py", SOURCE_SUFFIX);
  }

  lemma LocalLink(b: Roots, file: string)
    requires b.original == ["orig"] && b.candidate == ["cand"] && b.installations == []
    requires b.fs.resolve(file) == ["orig", "q"]
    ensures Local(b, file)
  {
    PrefixTestsAgree(["orig", "q"], ["orig"]);
    PrefixTestsAgree(["orig", "q"], ["cand"]);
    assert ["orig", "q"][0] == "orig" && ["cand"][0] == "cand";
  }

  lemma {:induction false} HeadOfFile(directory: string, name: string)
    requires SEP !in name
    ensures SplitHead(directory + [SEP] + name) == directory
  {
    var path := directory + [SEP] + name;
    if name == "" {
      assert path[..|path| - 1] == directory;
    } else {
      assert path[..|path| - 1] == directory + [SEP] + name[..|name| - 1];
      assert path[|path| - 1] == name[|name| - 1] && name[|name| - 1] in name;
      HeadOfFile(directory, name[..|name| - 1]);
    }
  }

  lemma Spelling(root: string, name: string)
    ensures Absolute([root]) == [SEP] + root && Absolute([root, name]) == [SEP] + root + [SEP] + name
  {
    assert [root, name][1..] == [name] && [name][1..] == [] && [root][1..] == [];
    assert Flat([name]) == [SEP] + name + "" && Flat([root]) == [SEP] + root + "";
  }

  /** Between these checkouts, a file of one maps to its counterpart in the other. */
  lemma MappedTo(b: Roots, file: string, counterpart: string, rest: Components)
    requires b.original == ["orig"] && b.candidate == ["cand"] && b.installations == [] && rest != []
    requires b.fs.resolve(file) == ["orig"] + rest && ["cand"] <= b.fs.resolve(counterpart)
    requires counterpart == Absolute(["cand"] + rest) && b.fs.present(counterpart)
    ensures Local(b, file) && Mapped(b, file, true) == Ok(counterpart)
  {
    var here, there := b.fs.resolve(file), b.fs.resolve(counterpart);
    PrefixTestsAgree(here, b.original);
    PrefixTestsAgree(here, b.candidate);
    PrefixTestsAgree(there, b.candidate);
    assert here[0] == "orig" && ["cand"][0] == "cand";
    assert Below(b, file) == rest;
    JoinRelative(b.candidate, rest);
  }
}
