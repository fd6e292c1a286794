/** The pytest entry's error codes, and their agreement with the diagnostic graph. */
module ErrorCodes {
  import opened Common
  import opened PyHeap
  import opened ErrorEncoding
  import opened ErrorGraph
  import opened Budget

  function CodesOf(name: string, code: Option<string>): (r: seq<string>)
    ensures |r| > 0 && r[0] == name
    ensures forall i :: 1 <= i < |r| ==> code == Some(r[i])
    ensures |r| == 2 <==> code.Some?
  {
    [name] + (if code.Some? then [code.value] else [])
  }

  ghost function Unseen(xs: Excs, seen: set<Ref>): nat {
    |xs.Keys - seen|
  }

  lemma UnseenDrops(xs: Excs, seen: set<Ref>, e: Ref)
    requires e in xs && e !in seen
    ensures Unseen(xs, seen + {e}) < Unseen(xs, seen)
  {
    assert e in xs.Keys - seen;
    SubsetSize(xs.Keys - (seen + {e}), xs.Keys - seen);
  }

  /** Names and string codes along the chain, until it ends or returns to an exception already seen. */
  ghost function ChainCodes(xs: Excs, current: Option<Ref>, seen: set<Ref>): seq<string>
    requires Closed(xs) && (current.Some? ==> current.value in xs)
    decreases Unseen(xs, seen)
  {
    if current.None? || current.value in seen then [] else
    var e := current.value;
    UnseenDrops(xs, seen, e);
    CauseIn(xs, e);
    CodesOf(xs[e].name, xs[e].code) + ChainCodes(xs, CauseOf(xs[e]), seen + {e})
  }

  lemma CauseIn(xs: Excs, e: Ref)
    requires Closed(xs) && e in xs
    ensures CauseOf(xs[e]).Some? ==> CauseOf(xs[e]).value in xs
  {
    if CauseOf(xs[e]).Some? { assert CauseOf(xs[e]).value in Successors(xs[e]); }
  }

  // ------------------------------------------------------------------
  // Which exceptions the codes come from

  ghost predicate IsWalk(xs: Excs, p: seq<Ref>) {
    forall i :: 0 <= i < |p| - 1 ==> p[i] in xs && RaisedFrom(xs[p[i]], p[i + 1])
  }

  /** From a, each exception raised from the next, to b. */
  ghost predicate Walks(xs: Excs, a: Ref, b: Ref) {
    exists p: seq<Ref> :: |p| > 0 && p[0] == a && p[|p| - 1] == b && IsWalk(xs, p)
  }

  lemma WalksOn(xs: Excs, a: Ref, c: Ref, b: Ref)
    requires a in xs && RaisedFrom(xs[a], c) && Walks(xs, c, b)
    ensures Walks(xs, a, b)
  {
    var p: seq<Ref> :| |p| > 0 && p[0] == c && p[|p| - 1] == b && IsWalk(xs, p);
    var q := [a] + p;
    forall i | 0 <= i < |q| - 1
      ensures q[i] in xs && RaisedFrom(xs[q[i]], q[i + 1])
    {
      if i > 0 { assert q[i] == p[i - 1] && q[i + 1] == p[i]; }
    }
    assert IsWalk(xs, q) && q[0] == a && q[|q| - 1] == b;
  }

  /** The exceptions on the chain, in order. */
  ghost function Chain(xs: Excs, current: Option<Ref>, seen: set<Ref>): seq<Ref>
    requires Closed(xs) && (current.Some? ==> current.value in xs)
    decreases Unseen(xs, seen)
  {
    if current.None? || current.value in seen then [] else
    var e := current.value;
    UnseenDrops(xs, seen, e);
    CauseIn(xs, e);
    [e] + Chain(xs, CauseOf(xs[e]), seen + {e})
  }

  lemma WalksSelf(xs: Excs, e: Ref)
    ensures Walks(xs, e, e)
  {
    var self := [e];
    assert self[0] == e && self[|self| - 1] == e && IsWalk(xs, self);
  }

  lemma ChainStep(xs: Excs, e: Ref, seen: set<Ref>)
    requires Closed(xs) && e in xs && e !in seen
    ensures Unseen(xs, seen + {e}) < Unseen(xs, seen)
    ensures CauseOf(xs[e]).Some? ==> CauseOf(xs[e]).value in xs
    ensures Chain(xs, Some(e), seen) == [e] + Chain(xs, CauseOf(xs[e]), seen + {e})
  {
    UnseenDrops(xs, seen, e);
    CauseIn(xs, e);
  }

  /** The chain visits only what can be walked to. */
  lemma {:induction false} ChainIsWalked(xs: Excs, e: Ref, seen: set<Ref>)
    requires Closed(xs) && e in xs
    ensures forall y :: y in Chain(xs, Some(e), seen) ==> y in xs && Walks(xs, e, y)
    decreases Unseen(xs, seen)
  {
    if e !in seen {
      ChainStep(xs, e, seen);
      WalksSelf(xs, e);
      var next := CauseOf(xs[e]);
      if next.Some? {
        ChainIsWalked(xs, next.value, seen + {e});
        forall y | y in Chain(xs, next, seen + {e}) ensures Walks(xs, e, y) { WalksOn(xs, e, next.value, y); }
      }
    }
  }

  /** What the chain leads to it visits or has visited. */
  lemma {:induction false} ChainIsClosed(xs: Excs, e: Ref, seen: set<Ref>)
    requires Closed(xs) && e in xs
    ensures e in Chain(xs, Some(e), seen) || e in seen
    ensures forall y, s :: y in Chain(xs, Some(e), seen) && y in xs && RaisedFrom(xs[y], s) ==>
      s in Chain(xs, Some(e), seen) || s in seen
    decreases Unseen(xs, seen)
  {
    if e !in seen {
      ChainStep(xs, e, seen);
      var next := CauseOf(xs[e]);
      if next.Some? { ChainIsClosed(xs, next.value, seen + {e}); }
      var chain, rest := Chain(xs, Some(e), seen), Chain(xs, next, seen + {e});
      assert chain[0] == e;
      forall y, s | y in chain && y in xs && RaisedFrom(xs[y], s) ensures s in chain || s in seen {
        if y !in rest { assert y == e && next == Some(s); }
      }
    }
  }

  lemma {:induction false} WalkStays(xs: Excs, p: seq<Ref>, chain: seq<Ref>)
    requires |p| > 0 && IsWalk(xs, p) && p[0] in chain
    requires forall y, s :: y in chain && y in xs && RaisedFrom(xs[y], s) ==> s in chain
    ensures p[|p| - 1] in chain
  {
    if |p| > 1 {
      assert p[1] in chain by { assert p[0] in xs && RaisedFrom(xs[p[0]], p[0 + 1]); }
      var rest := p[1..];
      forall i | 0 <= i < |rest| - 1
        ensures rest[i] in xs && RaisedFrom(xs[rest[i]], rest[i + 1])
      {
        assert rest[i] == p[i + 1] && rest[i + 1] == p[(i + 1) + 1];
      }
      WalkStays(xs, rest, chain);
    }
  }

  lemma ChainIsWalk(xs: Excs, e: Ref, y: Ref)
    requires Closed(xs) && e in xs
    ensures y in Chain(xs, Some(e), {}) <==> Walks(xs, e, y)
  {
    ChainIsWalked(xs, e, {});
    ChainIsClosed(xs, e, {});
    var chain := Chain(xs, Some(e), {});
    assert e in chain;
    if Walks(xs, e, y) {
      var p: seq<Ref> :| |p| > 0 && p[0] == e && p[|p| - 1] == y && IsWalk(xs, p);
      WalkStays(xs, p, chain);
    }
  }

  predicate HasCode(x: Exc, c: string) {
    c == x.name || x.code == Some(c)
  }

  /** Some exception of the chain has this name or code. */
  ghost predicate HaveCode(xs: Excs, chain: seq<Ref>, c: string) {
    exists y :: y in chain && y in xs && HasCode(xs[y], c)
  }

  lemma CodesOfOne(x: Exc, c: string)
    ensures c in CodesOf(x.name, x.code) <==> HasCode(x, c)
  {
    var here := CodesOf(x.name, x.code);
    assert here[0] in here;
    if x.code.Some? { assert here[1] in here; }
  }

  lemma HaveCodeStep(xs: Excs, e: Ref, rest: seq<Ref>, c: string)
    requires e in xs
    ensures HaveCode(xs, [e] + rest, c) <==> HasCode(xs[e], c) || HaveCode(xs, rest, c)
  {
    var chain := [e] + rest;
    assert forall y :: y in chain <==> y == e || y in rest;
    if HasCode(xs[e], c) { assert e in chain; }
  }

  lemma {:induction false} CodesOfChain(xs: Excs, current: Option<Ref>, seen: set<Ref>, c: string)
    requires Closed(xs) && (current.Some? ==> current.value in xs)
    ensures c in ChainCodes(xs, current, seen) <==> HaveCode(xs, Chain(xs, current, seen), c)
    decreases Unseen(xs, seen)
  {
    if current.Some? && current.value !in seen {
      var e := current.value;
      ChainStep(xs, e, seen);
      CodesOfChain(xs, CauseOf(xs[e]), seen + {e}, c);
      CodesOfOne(xs[e], c);
      HaveCodeStep(xs, e, Chain(xs, CauseOf(xs[e]), seen + {e}), c);
    }
  }

  /**
   The codes of an exception are the names and string codes of exactly the
   exceptions it was raised from, directly or not, through causes and contexts
   that are not suppressed.
   */
  lemma CodesAreOfChain(xs: Excs, exc: Ref, phase: string, c: string)
    requires Closed(xs) && exc in xs
    ensures c in Dedup([phase] + ChainCodes(xs, Some(exc), {})) <==>
      c == phase || exists y :: y in xs && Walks(xs, exc, y) && HasCode(xs[y], c)
  {
    DedupKeepsFirsts([phase] + ChainCodes(xs, Some(exc), {}));
    CodesOfChain(xs, Some(exc), {}, c);
    forall y ensures y in Chain(xs, Some(exc), {}) <==> Walks(xs, exc, y) { ChainIsWalk(xs, exc, y); }
    var codes := ChainCodes(xs, Some(exc), {});
    assert c in [phase] + codes <==> c == phase || c in codes;
  }

  /** A suppressed context without a cause: the entry has no cause link and the chain of codes ends there. */
  lemma SuppressedContextEndsChain(h: Heap, xs: Excs, exc: Ref)
    requires Closed(xs) && exc in xs && xs[exc].cause.None? && xs[exc].suppressContext
    ensures ChainCodes(xs, Some(exc), {}) == CodesOf(xs[exc].name, xs[exc].code)
    ensures |Encode(h, xs, exc).errors| > 0 && Encode(h, xs, exc).errors[0].cause.None?
  {
    EncodingIsTheReachableGraph(h, xs, exc);
    assert Mirrors(h, xs, exc, Encode(h, xs, exc), 0);
    assert CauseOf(xs[exc]).None?;
    assert CodesOf(xs[exc].name, xs[exc].code) + [] == CodesOf(xs[exc].name, xs[exc].code);
  }

  /** Keeps the first occurrence of every code. */
  function Dedup(codes: seq<string>): seq<string> {
    if codes == [] then [] else
    var n := |codes| - 1;
    var done := Dedup(codes[..n]);
    if codes[n] in done then done else done + [codes[n]]
  }

  /** Same codes, each once, in the order of their first occurrence. */
  lemma {:induction false} DedupKeepsFirsts(codes: seq<string>)
    ensures forall c :: c in Dedup(codes) <==> c in codes
    ensures forall i, j :: 0 <= i < j < |Dedup(codes)| ==> Dedup(codes)[i] != Dedup(codes)[j]
    ensures forall k :: 0 <= k <= |codes| ==> Dedup(codes[..k]) <= Dedup(codes)
  {
    if codes != [] {
      var n := |codes| - 1;
      DedupKeepsFirsts(codes[..n]);
      assert codes == codes[..n] + [codes[n]];
      forall k | 0 <= k <= |codes|
        ensures Dedup(codes[..k]) <= Dedup(codes)
      {
        if k <= n { assert codes[..n][..k] == codes[..k]; } else { assert codes[..k] == codes; }
      }
    }
  }

  /** `_error_codes` */
  method ErrorCodes(xs: Excs, exc: Ref, phase: string) returns (unique: seq<string>)
    requires Closed(xs) && exc in xs
    ensures unique == Dedup([phase] + ChainCodes(xs, Some(exc), {}))
  {
    var codes := [phase];
    var seen: set<Ref> := {};
    var current := Some(exc);
    while current.Some? && current.value !in seen
      invariant current.Some? ==> current.value in xs
      invariant codes + ChainCodes(xs, current, seen) == [phase] + ChainCodes(xs, Some(exc), {})
      decreases Unseen(xs, seen)
    {
      var e := current.value;
      UnseenDrops(xs, seen, e);
      CauseIn(xs, e);
      ConcatAssoc(codes, CodesOf(xs[e].name, xs[e].code), ChainCodes(xs, CauseOf(xs[e]), seen + {e}));
      seen := seen + {e};
      codes := codes + CodesOf(xs[e].name, xs[e].code);
      current := CauseOf(xs[e]);
    }
    assert codes + [] == codes;
    unique := [];
    var i := 0;
    while i < |codes|
      invariant 0 <= i <= |codes|
      invariant unique == Dedup(codes[..i])
    {
      assert codes[..i + 1][..i] == codes[..i];
      if codes[i] !in unique {
        unique := unique + [codes[i]];
      }
      i := i + 1;
    }
    assert codes[..i] == codes;
  }

  // ------------------------------------------------------------------
  // The same codes read off a graph

  ghost function Positions(n: nat): (r: set<nat>)
    ensures forall i: nat :: i in r <==> i < n
  {
    if n == 0 then {} else Positions(n - 1) + {n - 1}
  }

  ghost function Unmarked(errors: seq<ErrorEntry>, seen: set<nat>): nat {
    |Positions(|errors|) - seen|
  }

  lemma UnmarkedDrops(errors: seq<ErrorEntry>, seen: set<nat>, i: nat)
    requires i < |errors| && i !in seen
    ensures Unmarked(errors, seen + {i}) < Unmarked(errors, seen)
  {
    assert i in Positions(|errors|) - seen;
    SubsetSize(Positions(|errors|) - (seen + {i}), Positions(|errors|) - seen);
  }

  /** Names and codes along the `cause` links, until they end or an entry repeats. */
  ghost function LinkCodes(errors: seq<ErrorEntry>, current: Option<nat>, seen: set<nat>): seq<string>
    decreases Unmarked(errors, seen)
  {
    if current.None? || current.value in seen || current.value >= |errors| then [] else
    var i := current.value;
    UnmarkedDrops(errors, seen, i);
    CodesOf(errors[i].name, errors[i].code) + LinkCodes(errors, errors[i].cause, seen + {i})
  }

  ghost predicate AllMirror(h: Heap, xs: Excs, root: Ref, st: ErrorEncoding.State) {
    Valid(xs, st) && forall i :: 0 <= i < |st.errors| ==> Mirrors(h, xs, root, st, i)
  }

  /** The seen exceptions are the seen entries. */
  ghost predicate SameSeen(order: seq<Ref>, seen: set<Ref>, marks: set<nat>) {
    forall i :: 0 <= i < |order| ==> (order[i] in seen <==> i in marks)
  }

  /** The entry of an exception has its codes, and links to the entry of what it was raised from. */
  lemma CauseIsLinked(h: Heap, xs: Excs, root: Ref, st: ErrorEncoding.State, e: Ref)
    requires Closed(xs) && AllMirror(h, xs, root, st) && e in st.order
    ensures var entry := st.errors[IndexOf(st.order, e)];
            && e in xs && entry.name == xs[e].name && entry.code == xs[e].code
            && match CauseOf(xs[e])
               case None => entry.cause.None?
               case Some(c) => c in st.order && entry.cause == Some(IndexOf(st.order, c))
  {
    var entry := st.errors[IndexOf(st.order, e)];
    assert Mirrors(h, xs, root, st, IndexOf(st.order, e));
    if entry.cause.Some? {
      var c := st.order[entry.cause.value];
      assert RaisedFrom(xs[e], c) && CauseOf(xs[e]) == Some(c);
      OnlyPosition(st.order, c, entry.cause.value);
    }
  }

  lemma OnlyPosition(order: seq<Ref>, c: Ref, i: nat)
    requires Distinct(order) && i < |order| && order[i] == c
    ensures IndexOf(order, c) == i
  {
  }

  lemma {:induction false} ChainIsLinks(
    h: Heap, xs: Excs, root: Ref, st: ErrorEncoding.State, e: Ref, seen: set<Ref>, marks: set<nat>)
    requires Closed(xs) && AllMirror(h, xs, root, st) && e in st.order && SameSeen(st.order, seen, marks)
    ensures e in xs
    ensures ChainCodes(xs, Some(e), seen) == LinkCodes(st.errors, Some(IndexOf(st.order, e)), marks)
    decreases Unseen(xs, seen)
  {
    var i := IndexOf(st.order, e);
    CauseIsLinked(h, xs, root, st, e);
    if e !in seen {
      UnseenDrops(xs, seen, e);
      CauseIn(xs, e);
      SameSeenGrows(st.order, seen, marks, i);
      if CauseOf(xs[e]).Some? {
        ChainIsLinks(h, xs, root, st, CauseOf(xs[e]).value, seen + {e}, marks + {i});
      }
    }
  }

  lemma SameSeenGrows(order: seq<Ref>, seen: set<Ref>, marks: set<nat>, i: nat)
    requires Distinct(order) && i < |order| && SameSeen(order, seen, marks)
    ensures SameSeen(order, seen + {order[i]}, marks + {i})
  {
    forall k | 0 <= k < |order|
      ensures order[k] in seen + {order[i]} <==> k in marks + {i}
    {
      if k < i { assert order[k] != order[i]; } else if i < k { assert order[i] != order[k]; }
    }
  }

  /** Removing value fields changes no code and no cause. */
  lemma {:induction false} LinkCodesStripped(errors: seq<ErrorEntry>, current: Option<nat>, seen: set<nat>)
    ensures LinkCodes(StripAll(errors), current, seen) == LinkCodes(errors, current, seen)
    decreases Unmarked(errors, seen)
  {
    if current.Some? && current.value !in seen && current.value < |errors| {
      var i := current.value;
      UnmarkedDrops(errors, seen, i);
      assert |StripAll(errors)| == |errors|;
      LinkCodesStripped(errors, errors[i].cause, seen + {i});
    }
  }

  /**
   For every chain, cyclic or not, the error codes are the deduplicated phase
   code followed by the names and codes along the graph's cause links from its
   root, also after the reduction has dropped the graph's values.
   */
  lemma CodesAgreeWithGraph(
    h: Heap, xs: Excs, exc: Ref, phase: string, size: Graph -> nat, maxBytes: nat, origin: Option<Origin>)
    requires Closed(xs) && exc in xs
    ensures var g := Projected(h, xs, exc, origin);
            var r := Bounded(size, maxBytes, g);
            && Dedup([phase] + ChainCodes(xs, Some(exc), {})) == Dedup([phase] + LinkCodes(g.errors, g.root, {}))
            && (r.status.Captured? ==>
                  Dedup([phase] + ChainCodes(xs, Some(exc), {})) == Dedup([phase] + LinkCodes(r.errors, r.root, {})))
  {
    var st := Encode(h, xs, exc);
    EncodingIsTheReachableGraph(h, xs, exc);
    assert IndexOf(st.order, exc) == 0;
    ChainIsLinks(h, xs, exc, st, exc, {}, {});
    LinkCodesStripped(st.errors, Some(0), {});
  }
}
