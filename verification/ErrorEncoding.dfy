/**
 Encoding an exception graph into a flat table: `DiagnosticGraph.error`.

 `EncodeError` gives the whole state after one call. `order` lists the
 exceptions in the order they received an entry, so that exception `order[i]`
 is entry `error-i`.
 */
module ErrorEncoding {
  import opened Common
  import opened PyHeap
  import opened ValueEncoding

  datatype ErrorEntry = ErrorEntry(
    id: nat,
    name: string,
    message: Option<string>,
    stack: Option<string>,
    location: Option<string>,
    code: Option<string>,
    assertOperator: bool,
    expected: Option<nat>,
    actual: Option<nat>,
    value: Option<nat>,
    cause: Option<nat>,
    aggregate: Option<seq<nat>>)

  datatype State = State(order: seq<Ref>, errors: seq<ErrorEntry>, values: seq<Entry>, issues: seq<Issue>)

  const EMPTY_STATE := State([], [], [], [])

  function IndexOf(order: seq<Ref>, e: Ref): (i: nat)
    requires e in order
    ensures i < |order| && order[i] == e
    ensures forall j :: 0 <= j < i ==> order[j] != e
  {
    if order[0] == e then 0 else 1 + IndexOf(order[1..], e)
  }

  lemma IndexOfPrefix(a: seq<Ref>, b: seq<Ref>, e: Ref)
    requires a <= b && e in a
    ensures e in b && IndexOf(b, e) == IndexOf(a, e)
  {
    assert b[IndexOf(a, e)] == e;
  }

  predicate Distinct(s: seq<Ref>) {
    forall i, j :: 0 <= i < j < |s| ==> s[i] != s[j]
  }

  predicate AllIn(ms: seq<Ref>, order: seq<Ref>) {
    forall i :: 0 <= i < |ms| ==> ms[i] in order
  }

  lemma AllInGrows(ms: seq<Ref>, a: seq<Ref>, b: seq<Ref>)
    requires |ms| > 0 && a <= b && AllIn(ms[..|ms| - 1], a) && ms[|ms| - 1] in b
    ensures AllIn(ms, b)
  {
    forall i | 0 <= i < |ms|
      ensures ms[i] in b
    {
      if i < |ms| - 1 { assert ms[i] == ms[..|ms| - 1][i]; }
    }
  }

  ghost predicate Valid(xs: Excs, st: State) {
    && |st.order| == |st.errors|
    && Distinct(st.order)
    && forall i :: 0 <= i < |st.order| ==> st.order[i] in xs
  }

  /** Exceptions that have no entry yet. */
  ghost function Remaining(xs: Excs, order: seq<Ref>): nat {
    |xs.Keys - set e | e in order|
  }

  lemma RemainingShrinks(xs: Excs, a: seq<Ref>, b: seq<Ref>)
    requires a <= b
    ensures Remaining(xs, b) <= Remaining(xs, a)
  {
    assert forall e :: e in a ==> e in b;
    SubsetSize(xs.Keys - (set e | e in b), xs.Keys - (set e | e in a));
  }

  lemma RemainingDrops(xs: Excs, order: seq<Ref>, e: Ref)
    requires e in xs && e !in order
    ensures Remaining(xs, order + [e]) < Remaining(xs, order)
  {
    var a, b := xs.Keys - (set x | x in order), xs.Keys - (set x | x in order + [e]);
    assert e in a && e !in b;
    SubsetSize(b, a);
  }

  lemma SubsetSize<T>(a: set<T>, b: set<T>)
    requires a <= b
    ensures |a| <= |b| && (a != b ==> |a| < |b|)
  {
    assert b == a + (b - a);
    assert a != b ==> b - a != {};
  }

  // ------------------------------------------------------------------
  // The specification

  function ArgsItem(h: Heap, x: Exc): Item
    requires x.args != []
  {
    if |x.args| > 1 then ListItem(x.args) else Get(h, x.args[0])
  }

  function EncodedArgs(h: Heap, x: Exc, path: Path, base: nat): Encoded {
    if x.args == [] then Encoded([], []) else EncodeItem(h, ArgsItem(h, x), Field(path, Args), 0, base)
  }

  function UnreadableIssues(x: Exc, path: Path): seq<Issue> {
    (if x.message.None? then [Issue(Field(path, Message), SourceValueUnreadable)] else [])
    + (if x.stack.None? then [Issue(Field(path, Stack), SourceValueUnreadable)] else [])
  }

  /** The entry with everything but its links to other exceptions. */
  function Opened(h: Heap, x: Exc, st: State, e: Ref, path: Path): State {
    var args := EncodedArgs(h, x, path, |st.values|);
    State(
      st.order + [e],
      st.errors + [ErrorEntry(|st.errors|, x.name, x.message, x.stack, x.location, x.code, x.isAssertion,
                              None, None, if x.args == [] then None else Some(|st.values|), None, None)],
      st.values + args.entries,
      st.issues + UnreadableIssues(x, path) + args.issues)
  }

  lemma OpenedValid(h: Heap, xs: Excs, st: State, e: Ref, path: Path)
    requires Valid(xs, st) && e in xs && e !in st.order
    ensures Valid(xs, Opened(h, xs[e], st, e, path))
    ensures Remaining(xs, Opened(h, xs[e], st, e, path).order) < Remaining(xs, st.order)
  {
    RemainingDrops(xs, st.order, e);
  }

  function WithCause(st: State, k: nat, c: Ref): State
    requires k < |st.errors| && c in st.order
  {
    st.(errors := st.errors[k := st.errors[k].(cause := Some(IndexOf(st.order, c)))])
  }

  function Ids(order: seq<Ref>, ms: seq<Ref>): seq<nat>
    requires AllIn(ms, order)
  {
    seq(|ms|, i requires 0 <= i < |ms| => IndexOf(order, ms[i]))
  }

  function WithMembers(st: State, k: nat, ms: seq<Ref>): State
    requires k < |st.errors| && AllIn(ms, st.order)
  {
    st.(errors := st.errors[k := st.errors[k].(aggregate := Some(Ids(st.order, ms)))])
  }

  /** The state after `error(e, path)`; the id it returns is `IndexOf(order, e)`. */
  ghost function EncodeError(h: Heap, xs: Excs, st: State, e: Ref, path: Path): (r: State)
    requires Closed(xs) && Valid(xs, st) && e in xs
    ensures Valid(xs, r) && st.order <= r.order && e in r.order
    decreases Remaining(xs, st.order), 0, 0
  {
    if e in st.order then st else
    var x := xs[e];
    var k := |st.errors|;
    OpenedValid(h, xs, st, e, path);
    var begun := Opened(h, x, st, e, path);
    var caused := Caused(h, xs, begun, k, x, path);
    RemainingShrinks(xs, begun.order, caused.order);
    assert caused.order[k] == e;
    var r := Grouped(h, xs, caused, k, x, path);
    assert r.order[k] == e;
    r
  }

  /** The entry's cause, when there is one, encoded and linked. */
  ghost function Caused(h: Heap, xs: Excs, st: State, k: nat, x: Exc, path: Path): (r: State)
    requires Closed(xs) && Valid(xs, st) && k < |st.errors|
    requires forall s :: s in Successors(x) ==> s in xs
    ensures Valid(xs, r) && st.order <= r.order && (CauseOf(x).Some? ==> CauseOf(x).value in r.order)
    decreases Remaining(xs, st.order), 1, 0
  {
    if CauseOf(x).None? then st else
    var c := CauseOf(x).value;
    assert c in Successors(x);
    WithCause(EncodeError(h, xs, st, c, Field(path, Cause)), k, c)
  }

  /** The group's members, when there are any, encoded and linked. */
  ghost function Grouped(h: Heap, xs: Excs, st: State, k: nat, x: Exc, path: Path): (r: State)
    requires Closed(xs) && Valid(xs, st) && k < |st.errors|
    requires forall s :: s in Successors(x) ==> s in xs
    ensures Valid(xs, r) && st.order <= r.order
    decreases Remaining(xs, st.order), 3, 0
  {
    if MembersOf(x).None? then st else
    var ms := MembersOf(x).value;
    assert forall i :: 0 <= i < |ms| ==> ms[i] in Successors(x);
    WithMembers(EncodeMembers(h, xs, st, ms, Field(path, Exceptions)), k, ms)
  }

  ghost function EncodeMembers(h: Heap, xs: Excs, st: State, ms: seq<Ref>, path: Path): (r: State)
    requires Closed(xs) && Valid(xs, st) && forall i :: 0 <= i < |ms| ==> ms[i] in xs
    ensures Valid(xs, r) && st.order <= r.order && AllIn(ms, r.order)
    decreases Remaining(xs, st.order), 2, |ms|
  {
    if ms == [] then st else
    var n := |ms| - 1;
    var done := EncodeMembers(h, xs, st, ms[..n], path);
    RemainingShrinks(xs, st.order, done.order);
    var r := EncodeError(h, xs, done, ms[n], Element(path, n));
    AllInGrows(ms, done.order, r.order);
    r
  }
}
