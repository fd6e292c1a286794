/**
 The finished graph: projection, reduction to the serialized ceiling, and the
 explicit unavailable form.
 */
module Budget {
  import opened Common
  import opened PyHeap
  import opened ValueEncoding
  import opened ValueRoundTrip
  import opened ErrorEncoding
  import opened ErrorGraph
  import DiagnosticGraph

  datatype OriginKind = Condition | Hook | Phase | Step | Subtest

  datatype Origin = Origin(kind: OriginKind, name: Option<string>)

  datatype Status = Captured | NotCaptured

  datatype Graph = Graph(
    status: Status,
    root: Option<nat>,
    errors: seq<ErrorEntry>,
    values: seq<Entry>,
    issues: seq<Issue>,
    origin: Option<Origin>)

  const MAX_BYTES: nat := 262144  // 256 * 1024

  /** `_origin`: an empty name is no name. */
  function MakeOrigin(kind: OriginKind, name: Option<string>): Origin {
    Origin(kind, if name.Some? && name.value != "" then name else None)
  }

  /** `unavailable`: without issues of its own, the error was not supplied. */
  function UnavailableGraph(issues: seq<Issue>, origin: Option<Origin>): Graph {
    Graph(NotCaptured, None, [], [],
          if issues == [] then [Issue(WholeError, ErrorNotSupplied)] else issues, origin)
  }

  /** The entry without the fields that refer to values. */
  function Strip(e: ErrorEntry): ErrorEntry {
    e.(expected := None, actual := None, value := None)
  }

  function StripAll(errors: seq<ErrorEntry>): (r: seq<ErrorEntry>)
    ensures |r| == |errors|
    ensures forall i :: 0 <= i < |errors| ==> r[i] == Strip(errors[i])
  {
    seq(|errors|, i requires 0 <= i < |errors| => Strip(errors[i]))
  }

  function Loss(index: nat, field: ValueField): Issue {
    Issue(ErrorField(index, field), CaptureBudgetExceeded)
  }

  /** One issue per value field of the entry. */
  function Losses(index: nat, e: ErrorEntry): seq<Issue> {
    (if e.expected.Some? then [Loss(index, Expected)] else [])
    + (if e.actual.Some? then [Loss(index, Actual)] else [])
    + (if e.value.Some? then [Loss(index, Value)] else [])
  }

  function AllLosses(errors: seq<ErrorEntry>): seq<Issue> {
    if errors == [] then [] else
    var n := |errors| - 1;
    AllLosses(errors[..n]) + Losses(n, errors[n])
  }

  /** The graph without its values. */
  function Reduced(g: Graph): Graph {
    g.(errors := StripAll(g.errors), values := [], issues := g.issues + AllLosses(g.errors))
  }

  function OverBudget(g: Graph): Graph {
    UnavailableGraph([Issue(WholeError, CaptureBudgetExceeded)], g.origin)
  }

  /** Values are dropped first, then the whole capture; `size` is the serialized size. */
  function Bounded(size: Graph -> nat, maxBytes: nat, g: Graph): Graph {
    if size(g) <= maxBytes then g
    else if g.status.Captured? && g.values != [] && size(Reduced(g)) <= maxBytes then Reduced(g)
    else OverBudget(g)
  }

  /** The inner loop over one entry's value fields. */
  method DropFields(index: nat, entry: ErrorEntry) returns (kept: ErrorEntry, lost: seq<Issue>)
    ensures kept == Strip(entry) && lost == Losses(index, entry)
  {
    kept, lost := entry, [];
    if kept.expected.Some? {
      kept := kept.(expected := None);
      lost := lost + [Loss(index, Expected)];
    }
    if kept.actual.Some? {
      kept := kept.(actual := None);
      lost := lost + [Loss(index, Actual)];
    }
    if kept.value.Some? {
      kept := kept.(value := None);
      lost := lost + [Loss(index, Value)];
    }
  }

  /** `bounded`, building the reduced lists entry by entry. */
  method Bound(size: Graph -> nat, maxBytes: nat, g: Graph) returns (r: Graph)
    ensures r == Bounded(size, maxBytes, g)
  {
    if size(g) <= maxBytes {
      return g;
    }
    if g.status.Captured? && g.values != [] {
      var issues, errors := g.issues, [];
      var index := 0;
      while index < |g.errors|
        invariant 0 <= index <= |g.errors|
        invariant errors == StripAll(g.errors[..index])
        invariant issues == g.issues + AllLosses(g.errors[..index])
      {
        var kept, lost := DropFields(index, g.errors[index]);
        ConcatAssoc(g.issues, AllLosses(g.errors[..index]), lost);
        issues := issues + lost;
        assert g.errors[..index + 1][..index] == g.errors[..index];
        errors := errors + [kept];
        assert errors == StripAll(g.errors[..index + 1]);
        index := index + 1;
      }
      assert g.errors[..index] == g.errors;
      var reduced := g.(errors := errors, values := [], issues := issues);
      if size(reduced) <= maxBytes {
        return reduced;
      }
    }
    return OverBudget(g);
  }

  // ------------------------------------------------------------------
  // References

  ghost predicate RefIn(r: Option<nat>, n: nat) {
    r.Some? ==> r.value < n
  }

  ghost predicate EntryRefsIn(e: ErrorEntry, errors: nat, values: nat) {
    && RefIn(e.cause, errors)
    && (e.aggregate.Some? ==> forall j :: 0 <= j < |e.aggregate.value| ==> e.aggregate.value[j] < errors)
    && RefIn(e.expected, values) && RefIn(e.actual, values) && RefIn(e.value, values)
  }

  /** Every id mentioned anywhere names an entry, and ids are positions. */
  ghost predicate RefsClosed(g: Graph) {
    && RefIn(g.root, |g.errors|)
    && (forall i :: 0 <= i < |g.errors| ==> g.errors[i].id == i && EntryRefsIn(g.errors[i], |g.errors|, |g.values|))
    && WellFormed(g.values, 0)
  }

  /** All of an entry but its value fields. */
  ghost predicate SameButValues(a: ErrorEntry, b: ErrorEntry) {
    b == a.(expected := b.expected, actual := b.actual, value := b.value)
  }

  function FieldCount(errors: seq<ErrorEntry>): nat {
    if errors == [] then 0 else
    var n := |errors| - 1;
    FieldCount(errors[..n])
    + (if errors[n].expected.Some? then 1 else 0)
    + (if errors[n].actual.Some? then 1 else 0)
    + (if errors[n].value.Some? then 1 else 0)
  }

  lemma {:induction false} OneIssuePerField(errors: seq<ErrorEntry>)
    ensures |AllLosses(errors)| == FieldCount(errors)
    ensures forall k :: 0 <= k < |AllLosses(errors)| ==>
      && AllLosses(errors)[k].reason == CaptureBudgetExceeded
      && AllLosses(errors)[k].path.ErrorField? && AllLosses(errors)[k].path.index < |errors|
  {
    if errors != [] { OneIssuePerField(errors[..|errors| - 1]); }
  }

  function FieldOf(e: ErrorEntry, field: ValueField): Option<nat> {
    match field
    case Expected => e.expected
    case Actual => e.actual
    case Value => e.value
  }

  lemma LossesNameFields(index: nat, e: ErrorEntry, i: nat, field: ValueField)
    ensures Issue(ErrorField(i, field), CaptureBudgetExceeded) in Losses(index, e) <==>
      i == index && FieldOf(e, field).Some?
  {
    var a := if e.expected.Some? then [Loss(index, Expected)] else [];
    var b := if e.actual.Some? then [Loss(index, Actual)] else [];
    var c := if e.value.Some? then [Loss(index, Value)] else [];
    var l := Loss(i, field);
    assert l in a + b + c <==> l in a || l in b || l in c;
  }

  /** The issues name exactly the value fields that were there. */
  lemma {:induction false} IssuesNameFields(errors: seq<ErrorEntry>, i: nat, field: ValueField)
    ensures Issue(ErrorField(i, field), CaptureBudgetExceeded) in AllLosses(errors) <==>
      i < |errors| && FieldOf(errors[i], field).Some?
  {
    if errors != [] {
      var n := |errors| - 1;
      IssuesNameFields(errors[..n], i, field);
      LossesNameFields(n, errors[n], i, field);
    }
  }

  /** No two of these issues name the same field. */
  lemma {:induction false} LossesDistinct(errors: seq<ErrorEntry>)
    ensures forall k, l :: 0 <= k < l < |AllLosses(errors)| ==> AllLosses(errors)[k] != AllLosses(errors)[l]
  {
    if errors != [] {
      var n := |errors| - 1;
      LossesDistinct(errors[..n]);
      OneIssuePerField(errors[..n]);
      var before, here := AllLosses(errors[..n]), Losses(n, errors[n]);
      forall k, l | 0 <= k < l < |before + here|
        ensures (before + here)[k] != (before + here)[l]
      {
        if k < |before| <= l { assert before[k].path.index < n; }
      }
    }
  }

  /** Whatever the sizes are, the reduction keeps references closed. */
  lemma BoundedKeepsRefs(size: Graph -> nat, maxBytes: nat, g: Graph)
    requires RefsClosed(g)
    ensures RefsClosed(Bounded(size, maxBytes, g))
  {
    var r := Reduced(g);
    forall i | 0 <= i < |r.errors|
      ensures r.errors[i].id == i && EntryRefsIn(r.errors[i], |r.errors|, |r.values|)
    {
      assert EntryRefsIn(g.errors[i], |g.errors|, |g.values|);
    }
  }

  /**
   A capture that stays captured keeps its root, origin and every entry except
   value fields, one new issue per removed field.
   */
  lemma BoundedKeepsCapture(size: Graph -> nat, maxBytes: nat, g: Graph)
    requires Bounded(size, maxBytes, g).status.Captured?
    ensures var r := Bounded(size, maxBytes, g);
            && g.status.Captured? && r.root == g.root && r.origin == g.origin
            && |r.errors| == |g.errors|
            && (forall i :: 0 <= i < |g.errors| ==> SameButValues(r.errors[i], g.errors[i]))
            && g.issues <= r.issues
            && (r != g ==>
                && r.values == [] && FieldCount(r.errors) == 0
                && |r.issues| == |g.issues| + FieldCount(g.errors)
                && (forall k :: |g.issues| <= k < |r.issues| ==> r.issues[k].reason == CaptureBudgetExceeded)
                && forall i: nat, field ::
                     Issue(ErrorField(i, field), CaptureBudgetExceeded) in r.issues[|g.issues|..] <==>
                       i < |g.errors| && FieldOf(g.errors[i], field).Some?)
  {
    var r := Bounded(size, maxBytes, g);
    if r != g {
      OneIssuePerField(g.errors);
      Stripped(g.errors);
      forall k | |g.issues| <= k < |r.issues|
        ensures r.issues[k].reason == CaptureBudgetExceeded
      {
        assert r.issues[k] == AllLosses(g.errors)[k - |g.issues|];
      }
      assert r.issues[|g.issues|..] == AllLosses(g.errors);
      forall i: nat, field
        ensures Issue(ErrorField(i, field), CaptureBudgetExceeded) in AllLosses(g.errors) <==>
                  i < |g.errors| && FieldOf(g.errors[i], field).Some?
      {
        IssuesNameFields(g.errors, i, field);
      }
    }
  }

  lemma {:induction false} Stripped(errors: seq<ErrorEntry>)
    ensures FieldCount(StripAll(errors)) == 0
  {
    if errors != [] {
      var n := |errors| - 1;
      Stripped(errors[..n]);
      assert StripAll(errors)[..n] == StripAll(errors[..n]);
    }
  }

  /** The result fits, or is the explicit unavailable form with the same origin; reducing again changes nothing. */
  lemma BoundedSettles(size: Graph -> nat, maxBytes: nat, g: Graph)
    ensures var r := Bounded(size, maxBytes, g);
            && (size(r) <= maxBytes || r == UnavailableGraph([Issue(WholeError, CaptureBudgetExceeded)], g.origin))
            && Bounded(size, maxBytes, r) == r
  {
    assert OverBudget(OverBudget(g)) == OverBudget(g);
  }

  /** The unavailable form: nothing captured, the origin it was given, and always a reason. */
  lemma UnavailableMeans(issues: seq<Issue>, origin: Option<Origin>)
    ensures var g := UnavailableGraph(issues, origin);
            && g.status.NotCaptured? && g.root.None? && g.errors == [] && g.values == [] && g.origin == origin
            && g.issues == if |issues| > 0 then issues else [Issue(WholeError, ErrorNotSupplied)]
  {
  }

  /** An origin keeps its kind, and its name unless that is empty. */
  lemma OriginMeans(kind: OriginKind, name: Option<string>)
    ensures MakeOrigin(kind, name).kind == kind
    ensures MakeOrigin(kind, name).name == if name == Some("") then None else name
  {
  }

  /**
   Exactly which captures survive: those that fit, and those with values that
   fit without them. A capture that fits is not touched.
   */
  lemma BoundedExactly(size: Graph -> nat, maxBytes: nat, g: Graph)
    ensures var r := Bounded(size, maxBytes, g);
            && (size(g) <= maxBytes ==> r == g)
            && (size(g) > maxBytes ==>
                  (r.status.Captured? <==> g.status.Captured? && |g.values| > 0 && size(Reduced(g)) <= maxBytes))
            && r.origin == g.origin
  {
  }

  // ------------------------------------------------------------------
  // One failure's diagnosis

  /** The unreduced graph of an exception. */
  ghost function Projected(h: Heap, xs: Excs, e: Ref, origin: Option<Origin>): Graph
    requires Closed(xs) && e in xs
  {
    var st := Encode(h, xs, e);
    Graph(Captured, Some(0), st.errors, st.values, st.issues, origin)
  }

  /**
   `failure_diagnostic`; None stands for something that is not an exception, and
   `completes` says whether the capture runs to its end or raises on the way.
   */
  method FailureDiagnostic(
    h: Heap, xs: Excs, exc: Option<Ref>, size: Graph -> nat, origin: Option<(OriginKind, Option<string>)>,
    completes: bool)
    returns (r: Graph)
    requires Closed(xs) && (exc.Some? ==> exc.value in xs)
    ensures var o := if origin.Some? then Some(MakeOrigin(origin.value.0, origin.value.1)) else None;
            r == if exc.None? then UnavailableGraph([], o)
                 else if completes then Bounded(size, 256 * 1024, Projected(h, xs, exc.value, o))
                 else UnavailableGraph([Issue(WholeError, SourceValueUnreadable)], o)
    ensures RefsClosed(r) && (size(r) <= 256 * 1024 || r.status.NotCaptured?)
  {
    var o := if origin.Some? then Some(MakeOrigin(origin.value.0, origin.value.1)) else None;
    if exc.None? {
      return UnavailableGraph([], o);
    }
    if !completes {
      return UnavailableGraph([Issue(WholeError, SourceValueUnreadable)], o);
    }
    var graph := new DiagnosticGraph.DiagnosticGraph();
    var root := graph.Error(h, xs, exc.value, RootError);
    RootFirst(h, xs, exc.value);
    r := Bound(size, MAX_BYTES, Graph(Captured, Some(root), graph.errors, graph.values, graph.issues, o));
    ProjectedRefsClosed(h, xs, exc.value, o);
    BoundedKeepsRefs(size, MAX_BYTES, Projected(h, xs, exc.value, o));
    BoundedSettles(size, MAX_BYTES, Projected(h, xs, exc.value, o));
  }

  /** Nothing in a graph read from a finite heap points outside it. */
  lemma ProjectedRefsClosed(h: Heap, xs: Excs, e: Ref, origin: Option<Origin>)
    requires Closed(xs) && e in xs
    ensures RefsClosed(Projected(h, xs, e, origin))
  {
    EncodingIsTheReachableGraph(h, xs, e);
    var w := SomeWidth(h, xs);
    TableBounded(h, xs, e, w);
    var st := Encode(h, xs, e);
    forall i | 0 <= i < |st.errors|
      ensures st.errors[i].id == i && EntryRefsIn(st.errors[i], |st.errors|, |st.values|)
    {
      assert Mirrors(h, xs, e, st, i);
    }
  }
}
