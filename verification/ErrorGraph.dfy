/**
 The exception table is a faithful picture of the exception graph: exactly the
 exceptions reachable from the root, once each, with every link mirrored.
 */
module ErrorGraph {
  import opened Common
  import opened PyHeap
  import opened ValueEncoding
  import opened ValueRoundTrip
  import opened ErrorEncoding

  // ------------------------------------------------------------------
  // Reachability through cause, unsuppressed context and group members

  ghost predicate IsPath(xs: Excs, p: seq<Ref>) {
    forall i :: 0 <= i < |p| - 1 ==> p[i] in xs && LeadsTo(xs[p[i]], p[i + 1])
  }

  ghost predicate Reaches(xs: Excs, a: Ref, b: Ref) {
    exists p: seq<Ref> :: |p| > 0 && p[0] == a && p[|p| - 1] == b && IsPath(xs, p)
  }

  lemma ReachesSelf(xs: Excs, a: Ref)
    ensures Reaches(xs, a, a)
  {
    var p := [a];
    assert p[0] == a && p[|p| - 1] == a && IsPath(xs, p);
  }

  lemma ReachesVia(xs: Excs, a: Ref, c: Ref, b: Ref)
    requires a in xs && LeadsTo(xs[a], c) && Reaches(xs, c, b)
    ensures Reaches(xs, a, b)
  {
    var p: seq<Ref> :| |p| > 0 && p[0] == c && p[|p| - 1] == b && IsPath(xs, p);
    var q := [a] + p;
    forall i | 0 <= i < |q| - 1
      ensures q[i] in xs && LeadsTo(xs[q[i]], q[i + 1])
    {
      if i > 0 { assert q[i] == p[i - 1] && q[i + 1] == p[i]; }
    }
    assert IsPath(xs, q) && q[0] == a && q[|q| - 1] == b;
  }

  /** A path that starts in a set closed under Successors stays in it. */
  lemma {:induction false} PathStays(xs: Excs, p: seq<Ref>, order: seq<Ref>)
    requires |p| > 0 && IsPath(xs, p) && p[0] in order
    requires forall e, s :: e in order && e in xs && LeadsTo(xs[e], s) ==> s in order
    ensures p[|p| - 1] in order
  {
    if |p| > 1 {
      assert p[1] in order by { assert p[0] in xs && LeadsTo(xs[p[0]], p[0 + 1]); }
      var rest := p[1..];
      forall i | 0 <= i < |rest| - 1
        ensures rest[i] in xs && LeadsTo(xs[rest[i]], rest[i + 1])
      {
        assert rest[i] == p[i + 1] && rest[i + 1] == p[(i + 1) + 1];
      }
      PathStays(xs, rest, order);
    }
  }

  // ------------------------------------------------------------------
  // What an entry says about its exception

  /** From the root exception, a path of causes and group members leads to this one. */
  ghost predicate PathTo(xs: Excs, root: Ref, p: Path, e: Ref)
    decreases p
  {
    || (p == RootError && e == root)
    || (p.Field? && p.member.Cause? && exists mid ::
          PathTo(xs, root, p.parent, mid) && mid in xs && RaisedFrom(xs[mid], e))
    || (p.Element? && p.parent.Field? && p.parent.member.Exceptions? && exists mid ::
          PathTo(xs, root, p.parent.parent, mid) && mid in xs && HasMember(xs[mid], e)
          && p.index < |xs[mid].nested.value| && xs[mid].nested.value[p.index] == e)
  }

  /** What is stored and admitted for an exception found at a path. */
  ghost predicate StoredAt(
    h: Heap, x: Exc, path: Path, values: seq<Entry>, issues: seq<Issue>, value: Option<nat>)
  {
    && (x.message.None? ==> Issue(Field(path, Message), SourceValueUnreadable) in issues)
    && (x.stack.None? ==> Issue(Field(path, Stack), SourceValueUnreadable) in issues)
    && (value.None? <==> x.args == [])
    && (value.Some? ==>
          var e := EncodeItem(h, ArgsItem(h, x), Field(path, Args), 0, value.value);
          Holds(values, value.value, e.entries) && forall k :: 0 <= k < |e.issues| ==> e.issues[k] in issues)
  }

  /** Everything in the entry except its links. */
  ghost predicate Describes(
    h: Heap, xs: Excs, root: Ref, e: Ref, values: seq<Entry>, issues: seq<Issue>, entry: ErrorEntry, i: nat)
    requires e in xs
  {
    var x := xs[e];
    && entry.id == i && entry.name == x.name && entry.message == x.message && entry.stack == x.stack
    && entry.location == x.location && entry.code == x.code && entry.assertOperator == x.isAssertion
    && entry.expected.None? && entry.actual.None?
    && exists path :: PathTo(xs, root, path, e) && StoredAt(h, x, path, values, issues, entry.value)
  }

  /** The `cause` link is the exception this one was raised from; without one there is none. */
  ghost predicate CauseMirrored(x: Exc, order: seq<Ref>, entry: ErrorEntry) {
    && (entry.cause.None? <==> RaisedAlone(x))
    && (entry.cause.Some? ==> entry.cause.value < |order| && RaisedFrom(x, order[entry.cause.value]))
  }

  /** The member links are a group's members, in order. */
  ghost predicate MembersMirrored(x: Exc, order: seq<Ref>, entry: ErrorEntry) {
    && (entry.aggregate.Some? <==> x.isGroup && x.nested.Some?)
    && (entry.aggregate.Some? ==> Names(order, x.nested.value, entry.aggregate.value))
  }

  /** These positions name these exceptions. */
  ghost predicate Names(order: seq<Ref>, ms: seq<Ref>, ids: seq<nat>) {
    |ids| == |ms| && forall j :: 0 <= j < |ms| ==> ids[j] < |order| && order[ids[j]] == ms[j]
  }

  ghost predicate Mirrors(h: Heap, xs: Excs, root: Ref, st: State, i: nat)
    requires Valid(xs, st) && i < |st.errors|
  {
    var e := st.order[i];
    && Describes(h, xs, root, e, st.values, st.issues, st.errors[i], i)
    && CauseMirrored(xs[e], st.order, st.errors[i])
    && MembersMirrored(xs[e], st.order, st.errors[i])
  }

  lemma HoldsGrows(a: seq<Entry>, b: seq<Entry>, base: nat, entries: seq<Entry>)
    requires a <= b && Holds(a, base, entries)
    ensures Holds(b, base, entries)
  {
    assert b[base..base + |entries|] == a[base..base + |entries|];
  }

  lemma StoredGrows(
    h: Heap, x: Exc, path: Path, v: seq<Entry>, w: seq<Entry>, i: seq<Issue>, j: seq<Issue>, value: Option<nat>)
    requires v <= w && i <= j && StoredAt(h, x, path, v, i, value)
    ensures StoredAt(h, x, path, w, j, value)
  {
    assert forall issue :: issue in i ==> issue in j;
    if value.Some? {
      HoldsGrows(v, w, value.value, EncodeItem(h, ArgsItem(h, x), Field(path, Args), 0, value.value).entries);
    }
  }

  lemma DescribesGrows(h: Heap, xs: Excs, root: Ref, e: Ref, a: State, b: State, entry: ErrorEntry, i: nat)
    requires e in xs && a.values <= b.values && a.issues <= b.issues
    requires Describes(h, xs, root, e, a.values, a.issues, entry, i)
    ensures Describes(h, xs, root, e, b.values, b.issues, entry, i)
  {
    var path :| PathTo(xs, root, path, e) && StoredAt(h, xs[e], path, a.values, a.issues, entry.value);
    StoredGrows(h, xs[e], path, a.values, b.values, a.issues, b.issues, entry.value);
  }

  lemma LinksGrow(x: Exc, a: seq<Ref>, b: seq<Ref>, entry: ErrorEntry)
    requires a <= b
    ensures CauseMirrored(x, a, entry) ==> CauseMirrored(x, b, entry)
    ensures MembersMirrored(x, a, entry) ==> MembersMirrored(x, b, entry)
  {
    if MembersMirrored(x, a, entry) && entry.aggregate.Some? {
      var ms, ids := x.nested.value, entry.aggregate.value;
      forall j | 0 <= j < |ms| ensures ids[j] < |b| && b[ids[j]] == ms[j] { assert a[ids[j]] == ms[j]; }
    }
  }

  /** Later work leaves a finished entry a mirror. */
  lemma MirrorsGrows(h: Heap, xs: Excs, root: Ref, a: State, b: State, i: nat)
    requires Valid(xs, a) && Valid(xs, b) && i < |a.errors|
    requires a.order <= b.order && a.values <= b.values && a.issues <= b.issues && b.errors[i] == a.errors[i]
    requires Mirrors(h, xs, root, a, i)
    ensures Mirrors(h, xs, root, b, i)
  {
    assert b.order[i] == a.order[i];
    DescribesGrows(h, xs, root, a.order[i], a, b, a.errors[i], i);
    LinksGrow(xs[a.order[i]], a.order, b.order, a.errors[i]);
  }

  // ------------------------------------------------------------------
  // What one call does to the state

  /** From a to b: old entries untouched, new entries finished mirrors. */
  ghost predicate Progress(h: Heap, xs: Excs, root: Ref, a: State, b: State) {
    && Valid(xs, a) && Valid(xs, b)
    && a.order <= b.order && a.errors <= b.errors && a.values <= b.values && a.issues <= b.issues
    && forall i :: |a.errors| <= i < |b.errors| ==> Mirrors(h, xs, root, b, i)
  }

  lemma ProgressTrans(h: Heap, xs: Excs, root: Ref, a: State, b: State, c: State)
    requires Progress(h, xs, root, a, b) && Progress(h, xs, root, b, c)
    ensures Progress(h, xs, root, a, c)
  {
    forall i | |a.errors| <= i < |c.errors|
      ensures Mirrors(h, xs, root, c, i)
    {
      if i < |b.errors| { MirrorsGrows(h, xs, root, b, c, i); }
    }
  }

  /** New entries are reachable from one of the roots. */
  ghost predicate NewFrom(xs: Excs, a: State, b: State, e: Ref) {
    forall i :: |a.order| <= i < |b.order| ==> Reaches(xs, e, b.order[i])
  }

  /** Progress while the last entry of a, entry k, is still being filled in. */
  ghost predicate ProgressAround(h: Heap, xs: Excs, root: Ref, a: State, b: State) {
    && Valid(xs, a) && Valid(xs, b) && |a.errors| > 0
    && a.order <= b.order && a.values <= b.values && a.issues <= b.issues
    && a.errors[..|a.errors| - 1] <= b.errors
    && forall i :: |a.errors| <= i < |b.errors| ==> Mirrors(h, xs, root, b, i)
  }

  /** Only the links of entry k changed. */
  ghost predicate SameButLinks(x: ErrorEntry, y: ErrorEntry) {
    y == x.(cause := y.cause, aggregate := y.aggregate)
  }

  /** Filling in entry k disturbs no finished entry. */
  lemma FillEntry(h: Heap, xs: Excs, root: Ref, a: State, b: State, entry: ErrorEntry)
    requires ProgressAround(h, xs, root, a, b)
    ensures ProgressAround(h, xs, root, a, b.(errors := b.errors[|a.errors| - 1 := entry]))
  {
    var k := |a.errors| - 1;
    var c := b.(errors := b.errors[k := entry]);
    assert c.errors[..k] == b.errors[..k];
    forall i | |a.errors| <= i < |c.errors|
      ensures Mirrors(h, xs, root, c, i)
    {
      MirrorsGrows(h, xs, root, b, c, i);
    }
  }

  lemma AroundThen(h: Heap, xs: Excs, root: Ref, a: State, b: State, c: State)
    requires ProgressAround(h, xs, root, a, b) && Progress(h, xs, root, b, c)
    ensures ProgressAround(h, xs, root, a, c) && c.errors[|a.errors| - 1] == b.errors[|a.errors| - 1]
  {
    assert a.errors[..|a.errors| - 1] <= b.errors <= c.errors;
    forall i | |a.errors| <= i < |c.errors|
      ensures Mirrors(h, xs, root, c, i)
    {
      if i < |b.errors| { MirrorsGrows(h, xs, root, b, c, i); }
    }
  }

  lemma {:induction false} ErrorProgress(h: Heap, xs: Excs, root: Ref, st: State, e: Ref, path: Path)
    requires Closed(xs) && Valid(xs, st) && e in xs
    requires PathTo(xs, root, path, e)
    ensures Progress(h, xs, root, st, EncodeError(h, xs, st, e, path))
    ensures NewFrom(xs, st, EncodeError(h, xs, st, e, path), e)
    decreases Remaining(xs, st.order), 0, 0
  {
    if e !in st.order {
      var x, k := xs[e], |st.errors|;
      OpenedValid(h, xs, st, e, path);
      var begun := Opened(h, x, st, e, path);
      BegunDescribes(h, xs, root, st, e, path);
      CausedProgress(h, xs, root, begun, e, path);
      var caused := Caused(h, xs, begun, k, x, path);
      RemainingShrinks(xs, begun.order, caused.order);
      GroupedProgress(h, xs, root, begun, caused, e, path);
      GroupedLinks(h, xs, root, caused, k, e, path);
      EntryFinished(h, xs, root, st, begun, Grouped(h, xs, caused, k, x, path), e);
    }
  }

  /** A group's entry gets the positions of its members once they are all encoded. */
  lemma GroupedStep(h: Heap, xs: Excs, st: State, k: nat, e: Ref, path: Path)
    requires Closed(xs) && Valid(xs, st) && e in xs && k < |st.errors| && xs[e].isGroup && xs[e].nested.Some?
    ensures forall i :: 0 <= i < |xs[e].nested.value| ==> xs[e].nested.value[i] in xs
    ensures var ms := xs[e].nested.value;
            var all := EncodeMembers(h, xs, st, ms, Field(path, Exceptions));
            && Valid(xs, all) && st.order <= all.order && AllIn(ms, all.order) && k < |all.errors|
            && Grouped(h, xs, st, k, xs[e], path)
               == all.(errors := all.errors[k := all.errors[k].(aggregate := Some(Ids(all.order, ms)))])
  {
    var ms := xs[e].nested.value;
    assert forall i :: 0 <= i < |ms| ==> ms[i] in Successors(xs[e]);
    assert MembersOf(xs[e]) == Some(ms);
  }

  lemma {:induction false} GroupedProgress(h: Heap, xs: Excs, root: Ref, begun: State, st: State, e: Ref, path: Path)
    requires Closed(xs) && Valid(xs, st) && e in xs
    requires ProgressAround(h, xs, root, begun, st) && NewFrom(xs, begun, st, e)
    requires PathTo(xs, root, path, e)
    ensures var r := Grouped(h, xs, st, |begun.errors| - 1, xs[e], path);
            ProgressAround(h, xs, root, begun, r) && NewFrom(xs, begun, r, e)
    decreases Remaining(xs, st.order), 3, 0
  {
    var x, k := xs[e], |begun.errors| - 1;
    if x.isGroup && x.nested.Some? {
      var ms := x.nested.value;
      GroupedStep(h, xs, st, k, e, path);
      MembersProgress(h, xs, root, st, ms, Field(path, Exceptions), e);
      LinkedAround(h, xs, root, begun, st, EncodeMembers(h, xs, st, ms, Field(path, Exceptions)), e, ms);
    } else {
      assert MembersOf(x).None?;
    }
  }

  /** Encoding the members and linking them keeps the progress made around the group's entry. */
  lemma LinkedAround(
    h: Heap, xs: Excs, root: Ref, begun: State, st: State, all: State, e: Ref, ms: seq<Ref>)
    requires ProgressAround(h, xs, root, begun, st) && Progress(h, xs, root, st, all) && AllIn(ms, all.order)
    requires NewFrom(xs, begun, st, e) && NewFrom(xs, st, all, e)
    ensures var k := |begun.errors| - 1;
            var r := all.(errors := all.errors[k := all.errors[k].(aggregate := Some(Ids(all.order, ms)))]);
            ProgressAround(h, xs, root, begun, r) && NewFrom(xs, begun, r, e)
  {
    var k := |begun.errors| - 1;
    AroundThen(h, xs, root, begun, st, all);
    FillEntry(h, xs, root, begun, all, all.errors[k].(aggregate := Some(Ids(all.order, ms))));
    NewFromJoin(xs, begun, st, all, e);
  }

  lemma {:induction false} GroupedLinks(h: Heap, xs: Excs, root: Ref, st: State, k: nat, e: Ref, path: Path)
    requires Closed(xs) && Valid(xs, st) && e in xs && k < |st.errors|
    requires st.errors[k].aggregate.None?
    requires CauseMirrored(xs[e], st.order, st.errors[k])
    requires PathTo(xs, root, path, e)
    ensures var r := Grouped(h, xs, st, k, xs[e], path);
            && r.errors[k] == st.errors[k].(aggregate := r.errors[k].aggregate)
            && MembersMirrored(xs[e], r.order, r.errors[k])
            && CauseMirrored(xs[e], r.order, r.errors[k])
    decreases Remaining(xs, st.order), 3, 0
  {
    var x := xs[e];
    if x.isGroup && x.nested.Some? {
      var ms := x.nested.value;
      GroupedStep(h, xs, st, k, e, path);
      MembersProgress(h, xs, root, st, ms, Field(path, Exceptions), e);
      var all := EncodeMembers(h, xs, st, ms, Field(path, Exceptions));
      assert all.errors[k] == st.errors[k];
      LinksGrow(x, st.order, all.order, st.errors[k]);
    } else {
      assert MembersOf(x).None?;
    }
  }

  /** Entry k is complete: the call as a whole made progress. */
  lemma EntryFinished(h: Heap, xs: Excs, root: Ref, st: State, begun: State, final: State, e: Ref)
    requires Valid(xs, st) && e in xs
    requires begun.order == st.order + [e]
    requires |begun.errors| == |st.errors| + 1 && begun.errors[..|st.errors|] == st.errors
    requires st.values <= begun.values && st.issues <= begun.issues
    requires ProgressAround(h, xs, root, begun, final) && NewFrom(xs, begun, final, e)
    requires var k := |st.errors|;
             && SameButLinks(begun.errors[k], final.errors[k])
             && Describes(h, xs, root, e, begun.values, begun.issues, begun.errors[k], k)
             && CauseMirrored(xs[e], final.order, final.errors[k])
             && MembersMirrored(xs[e], final.order, final.errors[k])
    ensures Progress(h, xs, root, st, final) && NewFrom(xs, st, final, e)
  {
    var k := |st.errors|;
    assert final.order[k] == begun.order[k] == e;
    DescribesGrows(h, xs, root, e, begun, final, begun.errors[k], k);
    assert Mirrors(h, xs, root, final, k);
    ReachesSelf(xs, e);
  }

  lemma NewFromJoin(xs: Excs, a: State, b: State, c: State, e: Ref)
    requires a.order <= b.order <= c.order && NewFrom(xs, a, b, e) && NewFrom(xs, b, c, e)
    ensures NewFrom(xs, a, c, e)
  {
    forall i | |a.order| <= i < |c.order|
      ensures Reaches(xs, e, c.order[i])
    {
      if i < |b.order| { assert c.order[i] == b.order[i]; }
    }
  }

  lemma BegunDescribes(h: Heap, xs: Excs, root: Ref, st: State, e: Ref, path: Path)
    requires Valid(xs, st) && e in xs && e !in st.order
    requires PathTo(xs, root, path, e)
    ensures var begun := Opened(h, xs[e], st, e, path);
            && Describes(h, xs, root, e, begun.values, begun.issues, begun.errors[|st.errors|], |st.errors|)
            && begun.errors[|st.errors|].cause.None? && begun.errors[|st.errors|].aggregate.None?
            && begun.errors[..|st.errors|] == st.errors
            && st.values <= begun.values && st.issues <= begun.issues
  {
    var x, begun := xs[e], Opened(h, xs[e], st, e, path);
    StoredFirst(h, x, st, e, path);
    assert begun.errors[|st.errors|].value == if x.args == [] then None else Some(|st.values|);
  }

  lemma StoredFirst(h: Heap, x: Exc, st: State, e: Ref, path: Path)
    ensures var begun := Opened(h, x, st, e, path);
            StoredAt(h, x, path, begun.values, begun.issues, if x.args == [] then None else Some(|st.values|))
  {
    var begun := Opened(h, x, st, e, path);
    var args := EncodedArgs(h, x, path, |st.values|);
    var told := UnreadableIssues(x, path);
    assert Holds(begun.values, |st.values|, args.entries);
    assert forall issue :: issue in told || issue in args.issues ==> issue in begun.issues;
    if x.message.None? { assert told[0] == Issue(Field(path, Message), SourceValueUnreadable); }
    if x.stack.None? { assert told[|told| - 1] == Issue(Field(path, Stack), SourceValueUnreadable); }
  }

  lemma {:induction false} CausedProgress(h: Heap, xs: Excs, root: Ref, st: State, e: Ref, path: Path)
    requires Closed(xs) && Valid(xs, st) && |st.errors| > 0 && e in xs
    requires st.errors[|st.errors| - 1].cause.None?
    requires PathTo(xs, root, path, e)
    ensures var k := |st.errors| - 1;
            var r := Caused(h, xs, st, k, xs[e], path);
            && ProgressAround(h, xs, root, st, r) && NewFrom(xs, st, r, e)
            && r.errors[k] == st.errors[k].(cause := r.errors[k].cause)
            && CauseMirrored(xs[e], r.order, r.errors[k])
    decreases Remaining(xs, st.order), 1, 0
  {
    var x, k := xs[e], |st.errors| - 1;
    if CauseOf(x).Some? {
      var c := CauseOf(x).value;
      CausedStep(h, xs, st, k, e, path);
      assert PathTo(xs, root, Field(path, Cause), c);
      ErrorProgress(h, xs, root, st, c, Field(path, Cause));
      CauseLinked(h, xs, root, st, EncodeError(h, xs, st, c, Field(path, Cause)), e, c);
    } else {
      assert st.errors[..k] <= st.errors;
    }
  }

  /** An entry gets the position of its cause once that is encoded. */
  lemma CausedStep(h: Heap, xs: Excs, st: State, k: nat, e: Ref, path: Path)
    requires Closed(xs) && Valid(xs, st) && e in xs && k < |st.errors| && CauseOf(xs[e]).Some?
    ensures var c := CauseOf(xs[e]).value;
            && c in xs
            && var s := EncodeError(h, xs, st, c, Field(path, Cause));
               && Valid(xs, s) && st.order <= s.order && c in s.order && k < |s.errors|
               && Caused(h, xs, st, k, xs[e], path)
                  == s.(errors := s.errors[k := s.errors[k].(cause := Some(IndexOf(s.order, c)))])
  {
    assert CauseOf(xs[e]).value in Successors(xs[e]);
  }

  /** Linking the cause of the last entry keeps the progress made around it. */
  lemma CauseLinked(h: Heap, xs: Excs, root: Ref, st: State, s: State, e: Ref, c: Ref)
    requires Progress(h, xs, root, st, s) && NewFrom(xs, st, s, c) && |st.errors| > 0 && c in s.order
    requires e in xs && RaisedFrom(xs[e], c)
    ensures var k := |st.errors| - 1;
            var r := s.(errors := s.errors[k := s.errors[k].(cause := Some(IndexOf(s.order, c)))]);
            && ProgressAround(h, xs, root, st, r) && NewFrom(xs, st, r, e)
            && r.errors[k] == st.errors[k].(cause := r.errors[k].cause)
            && CauseMirrored(xs[e], r.order, r.errors[k])
  {
    var k := |st.errors| - 1;
    assert ProgressAround(h, xs, root, st, s) by { assert st.errors[..k] <= s.errors; }
    FillEntry(h, xs, root, st, s, s.errors[k].(cause := Some(IndexOf(s.order, c))));
    NewFromTrans(xs, st, st, s, e, c);
  }

  lemma {:induction false} MembersProgress(h: Heap, xs: Excs, root: Ref, st: State, ms: seq<Ref>, path: Path, e: Ref)
    requires Closed(xs) && Valid(xs, st) && e in xs
    requires xs[e].isGroup && xs[e].nested.Some? && ms <= xs[e].nested.value
    requires forall i :: 0 <= i < |ms| ==> ms[i] in xs
    requires path.Field? && path.member.Exceptions? && PathTo(xs, root, path.parent, e)
    ensures var r := EncodeMembers(h, xs, st, ms, path);
            Progress(h, xs, root, st, r) && NewFrom(xs, st, r, e)
    decreases Remaining(xs, st.order), 2, |ms|
  {
    if ms != [] {
      var n := |ms| - 1;
      MembersProgress(h, xs, root, st, ms[..n], path, e);
      var done := EncodeMembers(h, xs, st, ms[..n], path);
      RemainingShrinks(xs, st.order, done.order);
      assert xs[e].nested.value[n] == ms[n];
      assert PathTo(xs, root, Element(path, n), ms[n]);
      ErrorProgress(h, xs, root, done, ms[n], Element(path, n));
      var r := EncodeError(h, xs, done, ms[n], Element(path, n));
      ProgressTrans(h, xs, root, st, done, r);
      NewFromTrans(xs, st, done, r, e, ms[n]);
    }
  }

  lemma NewFromTrans(xs: Excs, a: State, b: State, c: State, e: Ref, m: Ref)
    requires a.order <= b.order <= c.order
    requires NewFrom(xs, a, b, e) && NewFrom(xs, b, c, m)
    requires e in xs && LeadsTo(xs[e], m)
    ensures NewFrom(xs, a, c, e)
  {
    forall i | |a.order| <= i < |c.order|
      ensures Reaches(xs, e, c.order[i])
    {
      if i < |b.order| { assert c.order[i] == b.order[i]; }
      else { ReachesVia(xs, e, m, c.order[i]); }
    }
  }

  // ------------------------------------------------------------------
  // The whole graph of one exception

  ghost function Encode(h: Heap, xs: Excs, e: Ref): State
    requires Closed(xs) && e in xs
  {
    EncodeError(h, xs, EMPTY_STATE, e, RootError)
  }

  /**
   For every finite exception graph, cyclic or not: the entries are exactly the
   exceptions reachable from the root, each once, the root first, and every
   entry mirrors its exception, links included.
   */
  lemma EncodingIsTheReachableGraph(h: Heap, xs: Excs, e: Ref)
    requires Closed(xs) && e in xs
    ensures var st := Encode(h, xs, e);
            && Valid(xs, st) && |st.order| > 0 && st.order[0] == e
            && (forall x :: x in st.order <==> Reaches(xs, e, x))
            && (forall i :: 0 <= i < |st.errors| ==> Mirrors(h, xs, e, st, i))
  {
    var st := Encode(h, xs, e);
    ErrorProgress(h, xs, e, EMPTY_STATE, e, RootError);
    RootFirst(h, xs, e);
    forall x
      ensures x in st.order <==> Reaches(xs, e, x)
    {
      if x in st.order { assert Reaches(xs, e, st.order[IndexOf(st.order, x)]); }
      if Reaches(xs, e, x) {
        var p: seq<Ref> :| |p| > 0 && p[0] == e && p[|p| - 1] == x && IsPath(xs, p);
        ClosedUnderSuccessors(h, xs, e, st);
        PathStays(xs, p, st.order);
      }
    }
  }

  lemma RootFirst(h: Heap, xs: Excs, e: Ref)
    requires Closed(xs) && e in xs
    ensures |Encode(h, xs, e).order| > 0 && Encode(h, xs, e).order[0] == e
  {
    OpenedValid(h, xs, EMPTY_STATE, e, RootError);
    var begun := Opened(h, xs[e], EMPTY_STATE, e, RootError);
    var caused := Caused(h, xs, begun, 0, xs[e], RootError);
    assert caused.order[0] == begun.order[0] == e;
    RemainingShrinks(xs, begun.order, caused.order);
    assert Grouped(h, xs, caused, 0, xs[e], RootError).order[0] == caused.order[0];
  }

  lemma ClosedUnderSuccessors(h: Heap, xs: Excs, root: Ref, st: State)
    requires Valid(xs, st) && forall i :: 0 <= i < |st.errors| ==> Mirrors(h, xs, root, st, i)
    ensures forall e, s :: e in st.order && e in xs && LeadsTo(xs[e], s) ==> s in st.order
  {
    forall e, s | e in st.order && e in xs && LeadsTo(xs[e], s)
      ensures s in st.order
    {
      assert Mirrors(h, xs, root, st, IndexOf(st.order, e));
      if CauseOf(xs[e]) != Some(s) {
        var ms := MembersOf(xs[e]).value;
        var j :| 0 <= j < |ms| && ms[j] == s;
      }
    }
  }

  /** A tree reads an exception's arguments: the only one, or all of them in order. */
  ghost predicate ArgumentsRead(h: Heap, args: seq<Ref>, t: Tree) {
    && (|args| == 1 ==> Faithful(h, Get(h, args[0]), t))
    && (|args| > 1 ==> Faithful(h, ListItem(args), t))
  }

  /**
   Each entry's value reads back to the exception's arguments, up to marked
   losses; without arguments there is none.
   */
  lemma ArgumentsFaithful(h: Heap, xs: Excs, e: Ref, i: nat)
    requires Closed(xs) && e in xs && i < |Encode(h, xs, e).errors|
    ensures var st := Encode(h, xs, e);
            && Valid(xs, st)
            && (st.errors[i].value.None? <==> xs[st.order[i]].args == [])
            && (st.errors[i].value.Some? ==>
                  ArgumentsRead(h, xs[st.order[i]].args, Decode(st.values, st.errors[i].value.value)))
  {
    var st := Encode(h, xs, e);
    EncodingIsTheReachableGraph(h, xs, e);
    assert Mirrors(h, xs, e, st, i);
    var x := xs[st.order[i]];
    if x.args != [] {
      var v := st.errors[i].value.value;
      var path :| PathTo(xs, e, path, st.order[i]) && StoredAt(h, x, path, st.values, st.issues, st.errors[i].value);
      EncodingFaithful(h, ArgsItem(h, x), Field(path, Args), 0, v, st.values);
    }
  }

  // ------------------------------------------------------------------
  // The value table of a whole graph

  ghost predicate ArgsNoWiderThan(xs: Excs, w: nat) {
    forall e :: e in xs ==> |xs[e].args| <= w
  }

  /** The table is well formed and within the amortised bound. */
  ghost predicate TableOk(st: State, w: nat) {
    WellFormed(st.values, 0) && |st.values| <= 4096 + 33 * w + |st.errors|
  }

  /** One exception's arguments, appended to a table within its bound. */
  lemma ArgsTable(h: Heap, x: Exc, path: Path, values: seq<Entry>, count: nat, w: nat)
    requires x.args != [] && WellFormed(values, 0) && |values| <= 4096 + 33 * w + count
    requires NoWiderThan(h, w) && Width(ArgsItem(h, x)) <= w
    ensures var more := EncodeItem(h, ArgsItem(h, x), Field(path, Args), 0, |values|).entries;
            WellFormed(values + more, 0) && |values + more| <= 4096 + 33 * w + (count + 1)
  {
    var item := ArgsItem(h, x);
    TopLevelBounded(h, item, Field(path, Args), |values|, w);
    EncodedWellFormed(h, item, Field(path, Args), 0, |values|);
    WellFormedConcat(values, EncodeItem(h, item, Field(path, Args), 0, |values|).entries, 0);
  }

  lemma BegunTable(h: Heap, xs: Excs, st: State, e: Ref, path: Path, w: nat)
    requires Valid(xs, st) && e in xs && TableOk(st, w) && NoWiderThan(h, w) && ArgsNoWiderThan(xs, w)
    ensures TableOk(Opened(h, xs[e], st, e, path), w)
  {
    var x := xs[e];
    if x.args != [] {
      ArgsTable(h, x, path, st.values, |st.errors|, w);
    } else {
      assert st.values + [] == st.values;
    }
  }

  lemma {:induction false} ErrorTable(h: Heap, xs: Excs, st: State, e: Ref, path: Path, w: nat)
    requires Closed(xs) && Valid(xs, st) && e in xs && TableOk(st, w) && NoWiderThan(h, w) && ArgsNoWiderThan(xs, w)
    ensures TableOk(EncodeError(h, xs, st, e, path), w)
    decreases Remaining(xs, st.order), 0, 0
  {
    if e !in st.order {
      var x, k := xs[e], |st.errors|;
      OpenedValid(h, xs, st, e, path);
      BegunTable(h, xs, st, e, path, w);
      var begun := Opened(h, x, st, e, path);
      CausedTable(h, xs, begun, k, e, path, w);
      var caused := Caused(h, xs, begun, k, x, path);
      RemainingShrinks(xs, begun.order, caused.order);
      GroupedTable(h, xs, caused, k, e, path, w);
    }
  }

  lemma {:induction false} CausedTable(h: Heap, xs: Excs, st: State, k: nat, e: Ref, path: Path, w: nat)
    requires Closed(xs) && Valid(xs, st) && e in xs && TableOk(st, w) && NoWiderThan(h, w) && ArgsNoWiderThan(xs, w)
    requires k < |st.errors|
    ensures TableOk(Caused(h, xs, st, k, xs[e], path), w)
    decreases Remaining(xs, st.order), 1, 0
  {
    var x := xs[e];
    if CauseOf(x).Some? {
      assert CauseOf(x).value in Successors(x);
      ErrorTable(h, xs, st, CauseOf(x).value, Field(path, Cause), w);
    }
  }

  lemma {:induction false} GroupedTable(h: Heap, xs: Excs, st: State, k: nat, e: Ref, path: Path, w: nat)
    requires Closed(xs) && Valid(xs, st) && e in xs && TableOk(st, w) && NoWiderThan(h, w) && ArgsNoWiderThan(xs, w)
    requires k < |st.errors|
    ensures TableOk(Grouped(h, xs, st, k, xs[e], path), w)
    decreases Remaining(xs, st.order), 3, 0
  {
    var x := xs[e];
    if MembersOf(x).Some? {
      var ms := MembersOf(x).value;
      assert forall i :: 0 <= i < |ms| ==> ms[i] in Successors(x);
      MembersTable(h, xs, st, ms, Field(path, Exceptions), w);
    }
  }

  lemma {:induction false} MembersTable(h: Heap, xs: Excs, st: State, ms: seq<Ref>, path: Path, w: nat)
    requires Closed(xs) && Valid(xs, st) && TableOk(st, w) && NoWiderThan(h, w) && ArgsNoWiderThan(xs, w)
    requires forall i :: 0 <= i < |ms| ==> ms[i] in xs
    ensures TableOk(EncodeMembers(h, xs, st, ms, path), w)
    decreases Remaining(xs, st.order), 2, |ms|
  {
    if ms != [] {
      var n := |ms| - 1;
      MembersTable(h, xs, st, ms[..n], path, w);
      var done := EncodeMembers(h, xs, st, ms[..n], path);
      RemainingShrinks(xs, st.order, done.order);
      ErrorTable(h, xs, done, ms[n], Element(path, n), w);
    }
  }

  /**
   Whatever the heap, the value table of one graph never exceeds
   4096 + 33 * (widest container) + (number of exceptions) entries, and every
   entry past the first 4096 is an unavailable leaf.
   */
  lemma TableBounded(h: Heap, xs: Excs, e: Ref, w: nat)
    requires Closed(xs) && e in xs && NoWiderThan(h, w) && ArgsNoWiderThan(xs, w)
    ensures var st := Encode(h, xs, e);
            && |st.values| <= 4096 + 33 * w + |st.errors|
            && (forall k :: 4096 <= k < |st.values| ==> st.values[k].body.Unavailable?)
            && WellFormed(st.values, 0)
  {
    ErrorTable(h, xs, EMPTY_STATE, e, RootError, w);
    var st := Encode(h, xs, e);
    forall k | 4096 <= k < |st.values|
      ensures st.values[k].body.Unavailable?
    {
      assert EntryOk(st.values[k], 0 + k, 0 + |st.values|);
    }
  }

  /** A finite heap has a widest container. */
  lemma SomeWidth(h: Heap, xs: Excs) returns (w: nat)
    ensures NoWiderThan(h, w) && ArgsNoWiderThan(xs, w)
  {
    var a := WidestItem(h, h.Keys);
    var b := WidestArgs(xs, xs.Keys);
    w := if a > b then a else b;
  }

  lemma {:induction false} WidestItem(h: Heap, refs: set<Ref>) returns (w: nat)
    requires refs <= h.Keys
    ensures forall r :: r in refs ==> Width(h[r]) <= w
    decreases |refs|
  {
    if refs == {} { return 0; }
    var r :| r in refs;
    w := WidestItem(h, refs - {r});
    if Width(h[r]) > w { w := Width(h[r]); }
  }

  lemma {:induction false} WidestArgs(xs: Excs, refs: set<Ref>) returns (w: nat)
    requires refs <= xs.Keys
    ensures forall r :: r in refs ==> |xs[r].args| <= w
    decreases |refs|
  {
    if refs == {} { return 0; }
    var r :| r in refs;
    w := WidestArgs(xs, refs - {r});
    if |xs[r].args| > w { w := |xs[r].args|; }
  }
}
