/**
 The encoder itself: an object whose tables grow while `Value` and `Error`
 recurse, proved to compute the functions the theorems are about.
 */
module DiagnosticGraph {
  import opened Common
  import opened PyHeap
  import opened ValueEncoding
  import opened ErrorEncoding

  class DiagnosticGraph {
    var errors: seq<ErrorEntry>
    var values: seq<Entry>
    var issues: seq<Issue>
    var errorIds: map<Ref, nat>
    ghost var order: seq<Ref>

    constructor ()
      ensures Tracks() && Now() == EMPTY_STATE
    {
      errors, values, issues, errorIds, order := [], [], [], map[], [];
    }

    /** `errorIds` records the position of every exception that has an entry. */
    ghost predicate Tracks()
      reads this
    {
      forall e :: (e in errorIds <==> e in order) && (e in order ==> errorIds[e] == IndexOf(order, e))
    }

    ghost function Now(): ErrorEncoding.State
      reads this
    {
      ErrorEncoding.State(order, errors, values, issues)
    }

    method Value(h: Heap, item: Item, path: Path, depth: nat) returns (id: nat)
      modifies this`values, this`issues
      ensures id == old(|values|)
      ensures values == old(values) + EncodeItem(h, item, path, depth, old(|values|)).entries
      ensures issues == old(issues) + EncodeItem(h, item, path, depth, old(|values|)).issues
      decreases Levels(depth), 1
    {
      id := |values|;
      if |values| >= MAX_VALUES || depth > MAX_DEPTH {
        issues := issues + [Issue(path, UnsupportedValueType)];
        values := values + [Entry(id, Unavailable(UnsupportedValueType, TypeName(item)))];
      } else if IsContainer(item) {
        Container(h, item, path, depth);
      } else {
        var leaf := EncodeLeaf(item, path, id);
        values := values + leaf.entries;
        issues := issues + leaf.issues;
      }
    }

    /** One child of the container at `id`: encode it and add its link to the container's entry. */
    method LinkChild(h: Heap, item: Item, path: Path, depth: nat, id: nat, at: Label, ref: Ref, links: seq<Link>)
      returns (more: seq<Link>)
      requires depth <= MAX_DEPTH && id < |values|
      modifies this`values, this`issues
      ensures more == links + [Link(at, old(|values|))]
      ensures values
           == (old(values) + EncodeItem(h, Get(h, ref), Under(path, at), depth + 1, old(|values|)).entries)
              [id := Shell(id, item, more)]
      ensures issues == old(issues) + EncodeItem(h, Get(h, ref), Under(path, at), depth + 1, old(|values|)).issues
      decreases Levels(depth), 0, 0
    {
      var child := Value(h, Get(h, ref), Under(path, at), depth + 1);
      more := links + [Link(at, child)];
      values := values[id := Shell(id, item, more)];
    }

    /** The container at `id` with the children encoded so far. */
    ghost predicate Building(before: seq<Entry>, told: seq<Issue>, id: nat, item: Item, kids: EncodedKids)
      reads this
    {
      && |before| == id
      && values == before + ([Shell(id, item, kids.links)] + kids.entries)
      && issues == told + kids.issues
    }

    method NextChild(h: Heap, item: Item, path: Path, depth: nat, id: nat, cs: seq<Child>, index: nat, links: seq<Link>,
                     ghost before: seq<Entry>, ghost told: seq<Issue>) returns (more: seq<Link>)
      requires depth <= MAX_DEPTH && index < |cs|
      requires Building(before, told, id, item, EncodeKids(h, cs[..index], path, depth + 1, id + 1))
      requires links == EncodeKids(h, cs[..index], path, depth + 1, id + 1).links
      modifies this`values, this`issues
      ensures Building(before, told, id, item, EncodeKids(h, cs[..index + 1], path, depth + 1, id + 1))
      ensures more == EncodeKids(h, cs[..index + 1], path, depth + 1, id + 1).links
      decreases Levels(depth), 0, 1
    {
      KidsStep(h, cs, index, path, depth + 1, id + 1);
      ghost var done := EncodeKids(h, cs[..index], path, depth + 1, id + 1);
      match cs[index] {
        case SkippedKey =>
          ConcatAssoc(told, done.issues, [Issue(path, UnsupportedSymbolKey)]);
          issues := issues + [Issue(path, UnsupportedSymbolKey)];
          more := links;
        case Child(at, ref) =>
          ghost var e := EncodeItem(h, Get(h, ref), Under(path, at), depth + 1, |values|);
          ConcatAssoc(told, done.issues, e.issues);
          more := LinkChild(h, item, path, depth, id, at, ref, links);
          Refill(before, Shell(id, item, links), done.entries, e.entries, Shell(id, item, more));
      }
    }

    /** A list, tuple or dictionary: its entry first, then its children, linked as they are encoded. */
    method Container(h: Heap, item: Item, path: Path, depth: nat)
      requires |values| < MAX_VALUES && depth <= MAX_DEPTH && IsContainer(item)
      modifies this`values, this`issues
      ensures values == old(values) + EncodeItem(h, item, path, depth, old(|values|)).entries
      ensures issues == old(issues) + EncodeItem(h, item, path, depth, old(|values|)).issues
      decreases Levels(depth), 0, 2
    {
      var id := |values|;
      ghost var before, told := values, issues;
      var cs := Children(item);
      var links: seq<Link> := [];
      values := values + [Shell(id, item, links)];
      var index := 0;
      assert cs[..0] == [];
      while index < |cs|
        invariant 0 <= index <= |cs|
        invariant Building(before, told, id, item, EncodeKids(h, cs[..index], path, depth + 1, id + 1))
        invariant links == EncodeKids(h, cs[..index], path, depth + 1, id + 1).links
      {
        links := NextChild(h, item, path, depth, id, cs, index, links, before, told);
        index := index + 1;
      }
      assert cs[..index] == cs;
    }

    method Error(h: Heap, xs: Excs, e: Ref, path: Path) returns (id: nat)
      requires Closed(xs) && Valid(xs, Now()) && Tracks() && e in xs
      modifies this
      ensures Tracks() && Now() == EncodeError(h, xs, old(Now()), e, path)
      ensures id == IndexOf(order, e)
      decreases Remaining(xs, order), 0, 0
    {
      if e in errorIds {
        return errorIds[e];
      }
      id := |errors|;
      ErrorStep(h, xs, Now(), e, path);
      Begin(h, xs, e, path);
      LinkCause(h, xs, e, id, path);
      LinkMembers(h, xs, e, id, path);
    }

    /** Registers the exception and appends its entry, without links. */
    method Begin(h: Heap, xs: Excs, e: Ref, path: Path)
      requires Valid(xs, Now()) && Tracks() && e in xs && e !in order
      modifies this
      ensures Tracks() && Now() == Opened(h, xs[e], old(Now()), e, path)
    {
      var x := xs[e];
      Register(e);
      errors := errors + [ErrorEntry(|errors|, x.name, None, None, None, None, false, None, None, None, None, None)];
      Describe(x, path);
      var v := Arguments(h, x, path);
      var last := |errors| - 1;
      errors := errors[last := errors[last].(value := v)];
    }

    method Register(e: Ref)
      requires Tracks() && e !in order && |order| == |errors|
      modifies this`errorIds, this`order
      ensures Tracks() && order == old(order) + [e]
    {
      NewPosition(order, e);
      errorIds := errorIds[e := |errors|];
      order := order + [e];
    }

    /** Everything the last entry says about its exception on its own. */
    method Describe(x: Exc, path: Path)
      requires |errors| > 0
      modifies this`errors, this`issues
      ensures issues == old(issues) + UnreadableIssues(x, path)
      ensures var last := old(|errors|) - 1;
              errors == old(errors)[last := old(errors)[last].(message := x.message, stack := x.stack,
                          location := x.location, code := x.code, assertOperator := x.isAssertion)]
    {
      var last := |errors| - 1;
      var entry := errors[last];
      var unreadable := [];
      entry := entry.(message := x.message);
      if x.message.None? {
        unreadable := unreadable + [Issue(Field(path, Message), SourceValueUnreadable)];
      }
      entry := entry.(stack := x.stack);
      if x.stack.None? {
        unreadable := unreadable + [Issue(Field(path, Stack), SourceValueUnreadable)];
      }
      issues := issues + unreadable;
      errors := errors[last := entry.(location := x.location, code := x.code, assertOperator := x.isAssertion)];
    }

    /** The arguments as one value: a list of several, or the only one. */
    method Arguments(h: Heap, x: Exc, path: Path) returns (v: Option<nat>)
      modifies this`values, this`issues
      ensures v == if x.args == [] then None else Some(old(|values|))
      ensures values == old(values) + EncodedArgs(h, x, path, old(|values|)).entries
      ensures issues == old(issues) + EncodedArgs(h, x, path, old(|values|)).issues
    {
      if x.args == [] {
        return None;
      }
      var item := if |x.args| > 1 then ListItem(x.args) else Get(h, x.args[0]);
      var id := Value(h, item, Field(path, Args), 0);
      return Some(id);
    }

    method LinkCause(h: Heap, xs: Excs, e: Ref, id: nat, path: Path)
      requires Closed(xs) && Valid(xs, Now()) && Tracks() && e in xs && id < |errors|
      modifies this
      ensures Tracks() && Now() == Caused(h, xs, old(Now()), id, xs[e], path)
      decreases Remaining(xs, order), 1, 0
    {
      var cause := CauseOf(xs[e]);
      if cause.Some? {
        assert cause.value in Successors(xs[e]);
        var c := Error(h, xs, cause.value, Field(path, Cause));
        errors := errors[id := errors[id].(cause := Some(c))];
      }
    }

    method LinkMembers(h: Heap, xs: Excs, e: Ref, id: nat, path: Path)
      requires Closed(xs) && Valid(xs, Now()) && Tracks() && e in xs && id < |errors|
      modifies this
      ensures Tracks() && Now() == Grouped(h, xs, old(Now()), id, xs[e], path)
      decreases Remaining(xs, order), 3, 0
    {
      var nested := MembersOf(xs[e]);
      if nested.Some? {
        assert forall i :: 0 <= i < |nested.value| ==> nested.value[i] in Successors(xs[e]);
        var ids := Members(h, xs, nested.value, Field(path, Exceptions));
        errors := errors[id := errors[id].(aggregate := Some(ids))];
      }
    }

    method Members(h: Heap, xs: Excs, ms: seq<Ref>, path: Path) returns (ids: seq<nat>)
      requires Closed(xs) && Valid(xs, Now()) && Tracks()
      requires forall i :: 0 <= i < |ms| ==> ms[i] in xs
      modifies this
      ensures Tracks() && Now() == EncodeMembers(h, xs, old(Now()), ms, path)
      ensures ids == Ids(order, ms)
      decreases Remaining(xs, order), 2, 0
    {
      ids := [];
      var index := 0;
      while index < |ms|
        invariant 0 <= index <= |ms|
        invariant Tracks() && Now() == EncodeMembers(h, xs, old(Now()), ms[..index], path)
        invariant ids == Ids(order, ms[..index])
      {
        ghost var before := order;
        assert ms[..index + 1][..index] == ms[..index];
        RemainingShrinks(xs, old(order), order);
        var id := Error(h, xs, ms[index], Element(path, index));
        IdsGrow(before, order, ms, index);
        ids := ids + [id];
        index := index + 1;
      }
      assert ms[..index] == ms;
    }
  }

  /** One unfolding of the specification for an exception without an entry. */
  lemma ErrorStep(h: Heap, xs: Excs, st: ErrorEncoding.State, e: Ref, path: Path)
    requires Closed(xs) && Valid(xs, st) && e in xs && e !in st.order
    ensures var k, begun := |st.errors|, Opened(h, xs[e], st, e, path);
            && Valid(xs, begun) && Remaining(xs, begun.order) < Remaining(xs, st.order)
            && var caused := Caused(h, xs, begun, k, xs[e], path);
               && Remaining(xs, caused.order) <= Remaining(xs, begun.order)
               && EncodeError(h, xs, st, e, path) == Grouped(h, xs, caused, k, xs[e], path)
               && IndexOf(EncodeError(h, xs, st, e, path).order, e) == k
  {
    var k := |st.errors|;
    OpenedValid(h, xs, st, e, path);
    var begun := Opened(h, xs[e], st, e, path);
    var caused := Caused(h, xs, begun, k, xs[e], path);
    RemainingShrinks(xs, begun.order, caused.order);
    var r := Grouped(h, xs, caused, k, xs[e], path);
    assert r.order[k] == caused.order[k] == begun.order[k] == e;
    PositionIs(r.order, e, k);
  }

  lemma PositionIs(order: seq<Ref>, e: Ref, i: nat)
    requires i < |order| && order[i] == e && Distinct(order)
    ensures IndexOf(order, e) == i
  {
  }

  lemma NewPosition(order: seq<Ref>, e: Ref)
    requires e !in order
    ensures IndexOf(order + [e], e) == |order|
    ensures forall x :: x in order ==> IndexOf(order + [e], x) == IndexOf(order, x)
  {
    assert (order + [e])[|order|] == e;
    forall x | x in order
      ensures IndexOf(order + [e], x) == IndexOf(order, x)
    {
      IndexOfPrefix(order, order + [e], x);
    }
  }

  lemma IdsGrow(a: seq<Ref>, b: seq<Ref>, ms: seq<Ref>, index: nat)
    requires a <= b && index < |ms| && AllIn(ms[..index], a) && ms[index] in b
    ensures AllIn(ms[..index + 1], b)
    ensures Ids(b, ms[..index + 1]) == Ids(a, ms[..index]) + [IndexOf(b, ms[index])]
  {
    assert ms[..index + 1][..index] == ms[..index];
    AllInGrows(ms[..index + 1], a, b);
    forall i | 0 <= i < index
      ensures Ids(b, ms[..index + 1])[i] == Ids(a, ms[..index])[i]
    {
      IndexOfPrefix(a, b, ms[i]);
    }
  }

  lemma Refill(before: seq<Entry>, x: Entry, done: seq<Entry>, more: seq<Entry>, y: Entry)
    ensures (before + ([x] + done) + more)[|before| := y] == before + ([y] + (done + more))
  {
  }
}
