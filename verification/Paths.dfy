/**
 Absolute paths as strings and as component sequences, and the three prefix
 tests used by the launcher's Python files.
 */
module Paths {
  import opened Common

  const SEP := '/'

  /** A name between separators. */
  predicate IsComponent(c: string) {
    c != "" && SEP !in c && c != "." && c != ".."
  }

  predicate AreComponents(cs: seq<string>) {
    forall i :: 0 <= i < |cs| ==> IsComponent(cs[i])
  }

  function Flat(cs: seq<string>): string {
    if cs == [] then "" else [SEP] + cs[0] + Flat(cs[1..])
  }

  /** The canonical spelling of an absolute path. */
  function Absolute(cs: seq<string>): string {
    if cs == [] then [SEP] else Flat(cs)
  }

  /** `within` of the source binding: equal, or below with one separator added. */
  predicate Within(file: string, root: string) {
    file == root || root + [SEP] <= file
  }

  /** `root.rstrip(os.sep)` */
  function RStrip(s: string): string {
    if |s| > 0 && s[|s| - 1] == SEP then RStrip(s[..|s| - 1]) else s
  }

  /** `_within` of the pytest entry, for one root. */
  predicate WithinStripped(file: string, root: string) {
    file == root || RStrip(root) + [SEP] <= file
  }

  /** The test in `_relative` of the diagnostic graph. */
  predicate BelowStripped(file: string, root: string) {
    RStrip(root) + [SEP] <= file
  }

  /** What precedes the last separator: the head of importlib's own `_path_split`. */
  function SplitHead(path: string): string {
    if path == "" then ""
    else if path[|path| - 1] == SEP then path[..|path| - 1]
    else SplitHead(path[..|path| - 1])
  }

  predicate EndsWith(s: string, suffix: string) {
    |suffix| <= |s| && s[|s| - |suffix|..] == suffix
  }

  lemma EndsWithMeans(s: string, suffix: string)
    ensures EndsWith(s, suffix) <==> exists stem: string :: s == stem + suffix
  {
    if EndsWith(s, suffix) { assert s == s[..|s| - |suffix|] + suffix; }
  }

  // ------------------------------------------------------------------
  // Prefixes of strings are prefixes of component sequences

  predicate Boundary(s: string) {
    s == "" || s[0] == SEP
  }

  lemma FlatIsBoundary(cs: seq<string>)
    ensures Boundary(Flat(cs))
  {
  }

  /** What precedes the first separator. */
  function Head(s: string): string {
    if s == "" || s[0] == SEP then "" else [s[0]] + Head(s[1..])
  }

  lemma {:induction false} HeadOf(x: string, u: string)
    requires SEP !in x && Boundary(u)
    ensures Head(x + u) == x && (x + u)[|x|..] == u
  {
    if x == "" {
      assert x + u == u;
    } else {
      assert (x + u)[1..] == x[1..] + u;
      HeadOf(x[1..], u);
    }
  }

  lemma SplitComponent(x: string, u: string, y: string, v: string)
    requires SEP !in x && SEP !in y && Boundary(u) && Boundary(v) && x + u == y + v
    ensures x == y && u == v
  {
    HeadOf(x, u);
    HeadOf(y, v);
  }

  lemma FlatEmpty(cs: seq<string>)
    ensures Flat(cs) == "" <==> cs == []
  {
  }

  lemma {:induction false} FlatPrefix(a: seq<string>, s: string, b: seq<string>)
    requires AreComponents(a) && AreComponents(b) && Boundary(s) && Flat(a) + s == Flat(b)
    ensures a <= b && s == Flat(b[|a|..])
  {
    if a == [] {
      assert Flat(a) + s == s && b[0..] == b;
    } else {
      assert b != [] by { assert |Flat(a) + s| > 0; }
      var u, v := Flat(a[1..]) + s, Flat(b[1..]);
      FlatIsBoundary(a[1..]);
      FlatIsBoundary(b[1..]);
      assert Flat(a) + s == [SEP] + (a[0] + u);
      assert Flat(b) == [SEP] + (b[0] + v);
      assert a[0] + u == (Flat(a) + s)[1..] && b[0] + v == Flat(b)[1..];
      SplitComponent(a[0], u, b[0], v);
      FlatPrefix(a[1..], s, b[1..]);
      assert a == [a[0]] + a[1..] && b == [b[0]] + b[1..];
      assert b[1..][|a| - 1..] == b[|a|..];
    }
  }

  lemma {:induction false} FlatConcat(a: seq<string>, b: seq<string>)
    ensures Flat(a + b) == Flat(a) + Flat(b)
  {
    if a == [] {
      assert a + b == b;
    } else {
      assert (a + b)[1..] == a[1..] + b;
      FlatConcat(a[1..], b);
    }
  }

  /** Different component sequences are different strings. */
  lemma AbsoluteInjective(a: seq<string>, b: seq<string>)
    requires AreComponents(a) && AreComponents(b) && Absolute(a) == Absolute(b)
    ensures a == b
  {
    if a != [] && b != [] {
      assert Flat(a) + "" == Flat(b);
      FlatPrefix(a, "", b);
      FlatEmpty(b[|a|..]);
      assert b == a + b[|a|..];
    } else if a != [] {
      NotJustSeparator(a);
    } else if b != [] {
      NotJustSeparator(b);
    }
  }

  lemma NotJustSeparator(cs: seq<string>)
    requires AreComponents(cs) && cs != []
    ensures |Absolute(cs)| > 1
  {
    assert IsComponent(cs[0]);
  }

  lemma {:induction false} NoTrailingSeparator(cs: seq<string>)
    requires AreComponents(cs) && cs != []
    ensures |Flat(cs)| > 0 && Flat(cs)[|Flat(cs)| - 1] != SEP
    ensures RStrip(Absolute(cs)) == Absolute(cs)
  {
    assert IsComponent(cs[0]);
    if |cs| == 1 {
      assert Flat(cs[1..]) == "";
      assert Flat(cs) == [SEP] + cs[0];
      assert Flat(cs)[|Flat(cs)| - 1] == cs[0][|cs[0]| - 1];
    } else {
      NoTrailingSeparator(cs[1..]);
    }
  }

  /** What it takes for a non-root directory's path and a separator to start a path. */
  lemma StartsBelow(file: seq<string>, root: seq<string>)
    requires AreComponents(file) && AreComponents(root) && root != []
    ensures Absolute(root) + [SEP] <= Absolute(file) <==> root < file
  {
    var r, f := Flat(root), Absolute(file);
    if r + [SEP] <= f {
      assert file != [] by { NotJustSeparator(root); }
      var s := f[|r|..];
      assert f == r + s && s[0] == SEP;
      FlatPrefix(root, s, file);
      assert root != file by { assert root == file ==> s == Flat([]); }
    }
    if root < file {
      var rest := file[|root|..];
      assert file == root + rest;
      FlatConcat(root, rest);
      assert Flat(rest)[0] == SEP;
      assert (r + Flat(rest))[..|r| + 1] == r + [SEP];
    }
  }

  /** All three tests are the component prefix test for every canonical root but "/". */
  lemma PrefixTestsAgree(file: seq<string>, root: seq<string>)
    requires AreComponents(file) && AreComponents(root) && root != []
    ensures Within(Absolute(file), Absolute(root)) <==> root <= file
    ensures WithinStripped(Absolute(file), Absolute(root)) <==> root <= file
    ensures BelowStripped(Absolute(file), Absolute(root)) <==> root < file
  {
    StartsBelow(file, root);
    NoTrailingSeparator(root);
    if Absolute(file) == Absolute(root) { AbsoluteInjective(file, root); }
    assert root <= file <==> root < file || root == file;
  }

  /** At the root they part: the binding's test holds only of "/" itself, the others of every file. */
  lemma PrefixTestsAtRoot(file: seq<string>)
    requires AreComponents(file)
    ensures Within(Absolute(file), Absolute([])) <==> file == []
    ensures WithinStripped(Absolute(file), Absolute([]))
    ensures BelowStripped(Absolute(file), Absolute([]))
  {
    assert RStrip([SEP]) == RStrip([SEP][..0]) == "";
    assert "" + [SEP] <= Absolute(file);
    if file != [] {
      NotJustSeparator(file);
      assert Flat(file)[1] == file[0][0] by { assert IsComponent(file[0]); }
      assert file[0][0] in file[0];
      assert ([SEP] + [SEP])[1] == SEP;
    }
  }

  // ------------------------------------------------------------------
  // relpath and join

  /** `relpath(root/rest, root)` */
  function Relative(rest: seq<string>): string {
    if rest == [] then "." else Flat(rest)[1..]
  }

  /** `os.path.join(base, rel)` for a relative second part. */
  function Join(base: string, rel: string): string {
    if base != "" && base[|base| - 1] == SEP then base + rel else base + [SEP] + rel
  }

  lemma JoinRelative(base: seq<string>, rest: seq<string>)
    requires AreComponents(base) && AreComponents(rest) && rest != []
    ensures Join(Absolute(base), Relative(rest)) == Absolute(base + rest)
  {
    assert Flat(rest) == [SEP] + Relative(rest);
    if base == [] {
      assert [] + rest == rest;
    } else {
      NoTrailingSeparator(base);
      FlatConcat(base, rest);
      ConcatAssoc(Flat(base), [SEP], Relative(rest));
    }
  }
}
