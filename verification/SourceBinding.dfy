/**
 Mapping files of the original checkout to the candidate checkout: `local` and
 `mapped` of the source binding. Nothing is assumed about how the two roots are
 nested, nor about symbolic links: `resolve` is any function.
 */
module SourceBinding {
  import opened Common
  import opened Paths

  type Components = cs: seq<string> | AreComponents(cs) witness []

  /** The file system as the binding consults it; `resolve` is `os.path.realpath`, split at separators. */
  datatype FileSystem = FileSystem(
    resolve: string -> Components,
    present: string -> bool,
    isDir: string -> bool,
    isFile: string -> bool,
    dirname: string -> string)

  /** What one binding works with; the platform decides which suffixes name extension modules. */
  datatype Roots = Roots(
    fs: FileSystem,
    original: Components,
    candidate: Components,
    installations: seq<Components>,
    extensionSuffixes: seq<string>)

  datatype Refusal = SourceEscapes | SourceMissing | MechanismUnsupported | ForeignError(code: string)

  function RealPath(b: Roots, file: string): string {
    Absolute(b.fs.resolve(file))
  }

  /** Inside the original, outside the candidate and outside every installation. */
  predicate Local(b: Roots, file: string) {
    && Within(RealPath(b, file), Absolute(b.original))
    && !Within(RealPath(b, file), Absolute(b.candidate))
    && !exists i :: 0 <= i < |b.installations| && Within(RealPath(b, file), Absolute(b.installations[i]))
  }

  /** A path is within a root only if its components start with the root's, also for the root "/". */
  lemma WithinHasPrefix(file: Components, root: Components)
    requires Within(Absolute(file), Absolute(root))
    ensures root <= file
  {
    if root == [] { PrefixTestsAtRoot(file); } else { PrefixTestsAgree(file, root); }
  }

  /** Component prefix, but for the root directory, of which the string test knows only itself. */
  predicate IsUnder(file: Components, root: Components) {
    if root == [] then file == [] else root <= file
  }

  lemma WithinIsUnder(file: Components, root: Components)
    ensures Within(Absolute(file), Absolute(root)) <==> IsUnder(file, root)
  {
    if root == [] { PrefixTestsAtRoot(file); } else { PrefixTestsAgree(file, root); }
  }

  /**
   A file is local exactly when its real path is under the original, and under
   neither candidate nor installations.
   */
  lemma LocalExactly(b: Roots, file: string)
    ensures var here := b.fs.resolve(file);
            Local(b, file) <==>
              && IsUnder(here, b.original) && !IsUnder(here, b.candidate)
              && forall i :: 0 <= i < |b.installations| ==> !IsUnder(here, b.installations[i])
  {
    var here := b.fs.resolve(file);
    WithinIsUnder(here, b.original);
    WithinIsUnder(here, b.candidate);
    forall i | 0 <= i < |b.installations|
      ensures Within(RealPath(b, file), Absolute(b.installations[i])) <==> IsUnder(here, b.installations[i])
    {
      WithinIsUnder(here, b.installations[i]);
    }
  }

  /** What a local file lies at below the original root. */
  function Below(b: Roots, file: string): (rest: Components)
    requires Local(b, file)
    ensures b.fs.resolve(file) == b.original + rest
  {
    WithinHasPrefix(b.fs.resolve(file), b.original);
    var whole := b.fs.resolve(file);
    assert whole == b.original + whole[|b.original|..];
    whole[|b.original|..]
  }

  /** `os.path.join(candidate, os.path.relpath(os.path.realpath(file), original))` */
  function Selected(b: Roots, file: string): string
    requires Local(b, file)
  {
    Join(Absolute(b.candidate), Relative(Below(b, file)))
  }

  function Mapped(b: Roots, file: string, requireExists: bool): Result<string, Refusal> {
    if !Local(b, file) then Ok(file) else
    var selected := Selected(b, file);
    if !Within(RealPath(b, selected), Absolute(b.candidate)) then Fail(SourceEscapes)
    else if requireExists && !b.fs.present(selected) then Fail(SourceMissing)
    else Ok(selected)
  }

  /** `[mapped(entry) for entry in entries]` */
  function MapAll(b: Roots, entries: seq<string>): Result<seq<string>, Refusal> {
    if entries == [] then Ok([]) else
    var n := |entries| - 1;
    match MapAll(b, entries[..n])
    case Fail(r) => Fail(r)
    case Ok(done) =>
      match Mapped(b, entries[n], true)
      case Fail(r) => Fail(r)
      case Ok(m) => Ok(done + [m])
  }

  predicate NoneLocal(b: Roots, entries: seq<string>) {
    forall i :: 0 <= i < |entries| ==> !Local(b, entries[i])
  }

  /** A mapped path is never local, and mapping it again changes nothing. */
  lemma MappedIsProjection(b: Roots, file: string, requireExists: bool, again: bool)
    requires Mapped(b, file, requireExists).Ok?
    ensures !Local(b, Mapped(b, file, requireExists).value)
    ensures Mapped(b, Mapped(b, file, requireExists).value, again) == Mapped(b, file, requireExists)
  {
  }

  /** The same place in the candidate; the root itself is spelled with a dot. */
  function Counterpart(b: Roots, rest: Components): string {
    if rest == [] then Join(Absolute(b.candidate), ".") else Absolute(b.candidate + rest)
  }

  /**
   A file that is not local stays as it is; a local one is refused exactly when
   its counterpart really lies outside the candidate, or has to exist and does
   not, and is otherwise replaced by its counterpart.
   */
  lemma MappedExactly(b: Roots, file: string, requireExists: bool)
    ensures !Local(b, file) ==> Mapped(b, file, requireExists) == Ok(file)
    ensures Local(b, file) ==>
      var other := Counterpart(b, Below(b, file));
      Mapped(b, file, requireExists)
      == if !IsUnder(b.fs.resolve(other), b.candidate) then Fail(SourceEscapes)
         else if requireExists && !b.fs.present(other) then Fail(SourceMissing)
         else Ok(other)
  {
    if Local(b, file) {
      var rest := Below(b, file);
      if rest != [] { JoinRelative(b.candidate, rest); }
      assert Selected(b, file) == Counterpart(b, rest);
      WithinIsUnder(b.fs.resolve(Counterpart(b, rest)), b.candidate);
    }
  }

  lemma MapAllStep(b: Roots, entries: seq<string>, entry: string)
    ensures MapAll(b, entries + [entry])
         == if MapAll(b, entries).Fail? then MapAll(b, entries)
            else match Mapped(b, entry, true)
                 case Fail(r) => Fail(r)
                 case Ok(m) => Ok(MapAll(b, entries).value + [m])
  {
    assert (entries + [entry])[..|entries|] == entries;
  }

  /** Entry by entry, these are the mapped paths. */
  predicate MapsTo(b: Roots, entries: seq<string>, mapped: seq<string>) {
    |mapped| == |entries| && forall i :: 0 <= i < |entries| ==> Mapped(b, entries[i], true) == Ok(mapped[i])
  }

  predicate AllMappable(b: Roots, entries: seq<string>) {
    forall i :: 0 <= i < |entries| ==> Mapped(b, entries[i], true).Ok?
  }

  lemma MapsToStep(b: Roots, entries: seq<string>, mapped: seq<string>, entry: string, m: string)
    requires MapsTo(b, entries, mapped) && Mapped(b, entry, true) == Ok(m)
    ensures MapsTo(b, entries + [entry], mapped + [m])
  {
  }

  lemma MappableStep(b: Roots, entries: seq<string>, entry: string)
    ensures AllMappable(b, entries + [entry]) <==> AllMappable(b, entries) && Mapped(b, entry, true).Ok?
  {
    var more := entries + [entry];
    assert more[|entries|] == entry;
    assert forall i :: 0 <= i < |entries| ==> more[i] == entries[i];
  }

  /** A list is mapped if and only if each of its entries can be, and then entry by entry. */
  lemma {:induction false} MapAllMaps(b: Roots, entries: seq<string>)
    ensures MapAll(b, entries).Ok? <==> AllMappable(b, entries)
    ensures MapAll(b, entries).Ok? ==> MapsTo(b, entries, MapAll(b, entries).value)
  {
    if entries != [] {
      var init, entry := entries[..|entries| - 1], entries[|entries| - 1];
      assert entries == init + [entry];
      MapAllMaps(b, init);
      MapAllStep(b, init, entry);
      MappableStep(b, init, entry);
      if MapAll(b, entries).Ok? {
        MapsToStep(b, init, MapAll(b, init).value, entry, Mapped(b, entry, true).value);
      }
    }
  }

  lemma MapAllIsProjection(b: Roots, entries: seq<string>)
    requires MapAll(b, entries).Ok?
    ensures MapsTo(b, entries, MapAll(b, entries).value) && NoneLocal(b, MapAll(b, entries).value)
  {
    MapAllMaps(b, entries);
    forall i | 0 <= i < |entries|
      ensures !Local(b, MapAll(b, entries).value[i])
    {
      MappedIsProjection(b, entries[i], true, true);
    }
  }

  lemma {:induction false} MapAllKeeps(b: Roots, entries: seq<string>)
    requires NoneLocal(b, entries)
    ensures MapAll(b, entries) == Ok(entries)
  {
    if entries != [] {
      var n := |entries| - 1;
      assert NoneLocal(b, entries[..n]);
      MapAllKeeps(b, entries[..n]);
      assert Mapped(b, entries[n], true) == Ok(entries[n]);
      assert entries[..n] + [entries[n]] == entries;
    }
  }

  /** On local files the original's components are replaced by the candidate's. */
  lemma MappedReplacesPrefix(b: Roots, file: string, requireExists: bool)
    requires Local(b, file) && Mapped(b, file, requireExists).Ok?
    ensures var rest := Below(b, file);
            Mapped(b, file, requireExists).value
            == if rest == [] then Join(Absolute(b.candidate), ".") else Absolute(b.candidate + rest)
  {
    if Below(b, file) != [] { JoinRelative(b.candidate, Below(b, file)); }
  }

  /** The spelling of the root itself ends in ".", which no component is. */
  lemma DotIsNoPath(base: Components, rest: Components)
    requires rest != []
    ensures Join(Absolute(base), ".") != Absolute(base + rest)
  {
    JoinRelative(base, rest);
    RelativeIsNotDot(rest);
    if Join(Absolute(base), ".") == Join(Absolute(base), Relative(rest)) {
      JoinInjective(Absolute(base), ".", Relative(rest));
    }
  }

  lemma RelativeIsNotDot(rest: Components)
    requires rest != []
    ensures Relative(rest) != "."
  {
    assert Relative(rest) == rest[0] + Flat(rest[1..]);
    FlatIsBoundary(rest[1..]);
    assert IsComponent(rest[0]);
    HeadOf(rest[0], Flat(rest[1..]));
    HeadOf(".", "");
    assert "." + "" == ".";
  }

  lemma JoinInjective(base: string, u: string, v: string)
    requires Join(base, u) == Join(base, v)
    ensures u == v
  {
    var k := |Join(base, "")|;
    assert u == Join(base, u)[k..] && v == Join(base, v)[k..];
  }

  /** Two local files that map to one path are one file. */
  lemma MappedInjective(b: Roots, f: string, g: string, requireExists: bool)
    requires Local(b, f) && Local(b, g)
    requires Mapped(b, f, requireExists).Ok? && Mapped(b, f, requireExists) == Mapped(b, g, requireExists)
    ensures b.fs.resolve(f) == b.fs.resolve(g)
  {
    MappedReplacesPrefix(b, f, requireExists);
    MappedReplacesPrefix(b, g, requireExists);
    var x, y := Below(b, f), Below(b, g);
    if x != [] && y != [] {
      AbsoluteInjective(b.candidate + x, b.candidate + y);
      assert x == (b.candidate + x)[|b.candidate|..] && y == (b.candidate + y)[|b.candidate|..];
    } else if x != [] {
      DotIsNoPath(b.candidate, x);
    } else if y != [] {
      DotIsNoPath(b.candidate, y);
    }
  }
}
