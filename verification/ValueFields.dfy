/**
 What the value table says about a value's own elements, entries and scalars:
 the readings of `ValueEncoding` and `ValueRoundTrip`, stated without the
 traversal they share with the encoder.
 */
module ValueFields {
  import opened Common
  import opened PyHeap
  import opened ValueEncoding
  import opened ValueRoundTrip

  predicate IsArray(item: Item) {
    item.ListItem? || item.TupleItem?
  }

  /** A dictionary's entries under string keys, in order. */
  function StringEntries(entries: seq<(Key, Ref)>): seq<(string, Ref)> {
    if entries == [] then [] else
    var last := entries[|entries| - 1];
    StringEntries(entries[..|entries| - 1]) + (if last.0.StrKey? then [(last.0.s, last.1)] else [])
  }

  // ------------------------------------------------------------------
  // Faithful readings

  ghost predicate KidIs(h: Heap, kid: Kid, at: Label, ref: Ref) {
    kid.Kid? && kid.at == at && Faithful(h, Get(h, ref), kid.tree)
  }

  /** Kid i is element i. */
  ghost predicate ElementsRead(h: Heap, elements: seq<Ref>, kids: seq<Kid>) {
    |kids| == |elements| && forall i :: 0 <= i < |elements| ==> KidIs(h, kids[i], Index(i), elements[i])
  }

  /** The kids are the entries, each under its key. */
  ghost predicate EntriesRead(h: Heap, entries: seq<(string, Ref)>, kids: seq<Kid>) {
    && |kids| == |entries|
    && forall i :: 0 <= i < |entries| ==> KidIs(h, kids[i], Name(entries[i].0), entries[i].1)
  }

  lemma ArrayChildren(elements: seq<Ref>, item: Item)
    requires item == ListItem(elements) || item == TupleItem(elements)
    ensures elements != [] ==>
      && Children(item)[..|elements| - 1] == Children(ListItem(elements[..|elements| - 1]))
      && Children(item)[|elements| - 1] == Child(Index(|elements| - 1), elements[|elements| - 1])
    ensures Children(item) == Children(ListItem(elements))
  {
  }

  lemma {:induction false} ElementsFaithful(h: Heap, elements: seq<Ref>, kids: seq<Kid>)
    ensures FaithfulKids(h, Children(ListItem(elements)), kids) <==> ElementsRead(h, elements, kids)
  {
    if elements == [] {
      assert Children(ListItem(elements)) == [];
    } else if kids != [] {
      var n, k := |elements| - 1, |kids| - 1;
      ArrayChildren(elements, ListItem(elements));
      ElementsFaithful(h, elements[..n], kids[..k]);
      ElementsReadStep(h, elements[..n], elements[n], kids[..k], kids[k]);
      assert elements[..n] + [elements[n]] == elements && kids[..k] + [kids[k]] == kids;
    } else {
      ArrayChildren(elements, ListItem(elements));
    }
  }

  lemma ElementsReadStep(h: Heap, elements: seq<Ref>, element: Ref, kids: seq<Kid>, kid: Kid)
    ensures ElementsRead(h, elements + [element], kids + [kid])
       <==> ElementsRead(h, elements, kids) && KidIs(h, kid, Index(|elements|), element)
  {
    var es, ks := elements + [element], kids + [kid];
    if ElementsRead(h, es, ks) {
      assert KidIs(h, ks[|elements|], Index(|elements|), es[|elements|]);
      forall i | 0 <= i < |elements| ensures KidIs(h, kids[i], Index(i), elements[i]) {
        assert KidIs(h, ks[i], Index(i), es[i]);
      }
    }
  }

  lemma DictChildren(entries: seq<(Key, Ref)>)
    requires entries != []
    ensures var n, last := |entries| - 1, entries[|entries| - 1];
            && Children(DictItem(entries))[..n] == Children(DictItem(entries[..n]))
            && Children(DictItem(entries))[n] == if last.0.StrKey? then Child(Name(last.0.s), last.1) else SkippedKey
  {
  }

  lemma {:induction false} EntriesFaithful(h: Heap, entries: seq<(Key, Ref)>, kids: seq<Kid>)
    ensures FaithfulKids(h, Children(DictItem(entries)), kids) <==> EntriesRead(h, StringEntries(entries), kids)
  {
    if entries == [] {
      assert Children(DictItem(entries)) == [];
    } else {
      var n, last := |entries| - 1, entries[|entries| - 1];
      DictChildren(entries);
      if last.0.OtherKey? {
        EntriesFaithful(h, entries[..n], kids);
        assert StringEntries(entries[..n]) + [] == StringEntries(entries[..n]);
      } else if kids != [] {
        var k := |kids| - 1;
        EntriesFaithful(h, entries[..n], kids[..k]);
        EntriesReadStep(h, StringEntries(entries[..n]), (last.0.s, last.1), kids[..k], kids[k]);
        assert kids[..k] + [kids[k]] == kids;
      }
    }
  }

  lemma EntriesReadStep(
    h: Heap, entries: seq<(string, Ref)>, entry: (string, Ref), kids: seq<Kid>, kid: Kid)
    ensures EntriesRead(h, entries + [entry], kids + [kid])
       <==> EntriesRead(h, entries, kids) && KidIs(h, kid, Name(entry.0), entry.1)
  {
    var es, ks := entries + [entry], kids + [kid];
    if EntriesRead(h, es, ks) {
      assert KidIs(h, ks[|entries|], Name(es[|entries|].0), es[|entries|].1);
      forall i | 0 <= i < |entries| ensures KidIs(h, kids[i], Name(entries[i].0), entries[i].1) {
        assert KidIs(h, ks[i], Name(es[i].0), es[i].1);
      }
    }
  }

  /** The name of a value's type. */
  predicate IsTypeOf(item: Item, name: PyType) {
    match name
    case NoneType => item == ScalarItem(NoneScalar)
    case BoolType => item.ScalarItem? && item.scalar.BoolScalar?
    case IntType => item.ScalarItem? && item.scalar.IntScalar?
    case FloatType => item.ScalarItem? && item.scalar.FloatScalar?
    case StrType => item.ScalarItem? && item.scalar.StrScalar?
    case ListType => item.ListItem?
    case TupleType => item.TupleItem?
    case DictType => item.DictItem?
    case Named(n) => item.OtherItem? && item.typeName == n
  }

  /**
   A faithful reading is marked lost under the value's own type, or is its own
   scalar, or an array of its elements in order, or an object of its
   string-keyed entries in order, each read faithfully in turn.
   */
  lemma FaithfulMeans(h: Heap, item: Item, t: Tree)
    ensures Faithful(h, item, t) <==>
      match t
      case Lost(name) => IsTypeOf(item, name)
      case Leaf(s) => item == ScalarItem(s)
      case Node(isArray, kids) =>
        || (isArray && IsArray(item) && ElementsRead(h, item.elements, kids))
        || (!isArray && item.DictItem? && EntriesRead(h, StringEntries(item.entries), kids))
  {
    if t.Node? && IsArray(item) {
      ArrayChildren(item.elements, item);
      ElementsFaithful(h, item.elements, t.kids);
    } else if t.Node? && item.DictItem? {
      EntriesFaithful(h, item.entries, t.kids);
    }
  }

  /**
   Within the budget a list or tuple is an array entry that records its length
   and reads back to its elements, a dictionary an object entry that reads back
   to its string-keyed entries.
   */
  lemma ContainersDecode(h: Heap, item: Item, path: Path, depth: nat, base: nat, table: seq<Entry>)
    requires base < MAX_VALUES && depth <= MAX_DEPTH && IsContainer(item)
    requires Holds(table, base, EncodeItem(h, item, path, depth, base).entries)
    ensures base < |table| && table[base].id == base && table[base].body.ContainerValue? && Decode(table, base).Node?
    ensures var t, body := Decode(table, base), table[base].body;
            && (IsArray(item) ==>
                  t.isArray && body.length == Some(|item.elements|) && ElementsRead(h, item.elements, t.kids))
            && (item.DictItem? ==>
                  !t.isArray && body.length.None? && EntriesRead(h, StringEntries(item.entries), t.kids))
  {
    ContainerHolds(h, item, path, depth, base, table);
    HoldsHead(table, base, EncodeItem(h, item, path, depth, base).entries);
    EncodingFaithful(h, item, path, depth, base, table);
    FaithfulMeans(h, item, Decode(table, base));
  }

  // ------------------------------------------------------------------
  // Unfoldings

  /** An array unfolds to its elements in order. */
  lemma {:induction false} UnfoldArray(h: Heap, elements: seq<Ref>, item: Item, n: nat)
    requires item == ListItem(elements) || item == TupleItem(elements)
    ensures var t := Unfold(h, item, n + 1);
            && t.Node? && t.isArray && |t.kids| == |elements|
            && forall i :: 0 <= i < |elements| ==> t.kids[i] == Kid(Index(i), Unfold(h, Get(h, elements[i]), n))
  {
    ArrayChildren(elements, item);
    if elements != [] {
      var k := |elements| - 1;
      UnfoldArray(h, elements[..k], ListItem(elements[..k]), n);
      var before := UnfoldKids(h, Children(ListItem(elements[..k])), n);
      assert UnfoldKids(h, Children(item), n) == before + [Kid(Index(k), Unfold(h, Get(h, elements[k]), n))];
      forall i | 0 <= i < |elements|
        ensures UnfoldKids(h, Children(item), n)[i] == Kid(Index(i), Unfold(h, Get(h, elements[i]), n))
      {
        if i < k { assert elements[..k][i] == elements[i]; }
      }
    }
  }

  /** A dictionary unfolds to its entries in order, keys that are not strings marked. */
  lemma {:induction false} UnfoldDict(h: Heap, entries: seq<(Key, Ref)>, n: nat)
    ensures var t := Unfold(h, DictItem(entries), n + 1);
            && t.Node? && !t.isArray && |t.kids| == |entries|
            && forall i :: 0 <= i < |entries| ==>
                 t.kids[i] == match entries[i].0
                              case StrKey(key) => Kid(Name(key), Unfold(h, Get(h, entries[i].1), n))
                              case OtherKey => LostKey
  {
    if entries != [] {
      var k := |entries| - 1;
      DictChildren(entries);
      UnfoldDict(h, entries[..k], n);
      var before := UnfoldKids(h, Children(DictItem(entries[..k])), n);
      assert UnfoldKids(h, Children(DictItem(entries)), n)[..k] == before;
      forall i | 0 <= i < k ensures entries[..k][i] == entries[i] { }
    }
  }

  // ------------------------------------------------------------------
  // Scalars

  /** Numbers are those JavaScript reads exactly, integers beyond them are decimal text. */
  lemma NumbersAreSafe(i: int)
    ensures EncodeScalar(IntScalar(i)) == NumberInt(i) <==> -9007199254740991 <= i <= 9007199254740991
    ensures !EncodeScalar(IntScalar(i)).NumberInt? ==> EncodeScalar(IntScalar(i)) == Bigint(Decimal(i))
  {
  }

  // ------------------------------------------------------------------
  // Issues name what was lost

  /** From a value found at one path, another path leads to this value. */
  ghost predicate LeadsBy(h: Heap, item: Item, root: Path, p: Path, target: Item)
    decreases p
  {
    || (p == root && target == item)
    || (p.Element? && exists mid: Item ::
          && LeadsBy(h, item, root, p.parent, mid)
          && IsArray(mid) && p.index < |mid.elements| && target == Get(h, mid.elements[p.index]))
    || (p.Field? && p.member.Keyed? && exists mid: Item ::
          LeadsBy(h, item, root, p.parent, mid) && mid.DictItem? && HasEntry(h, mid.entries, p.member.key, target))
  }

  predicate HasEntry(h: Heap, entries: seq<(Key, Ref)>, key: string, value: Item) {
    exists i :: 0 <= i < |entries| && entries[i].0 == StrKey(key) && value == Get(h, entries[i].1)
  }

  lemma {:induction false} LeadsOn(h: Heap, item: Item, root: Path, child: Item, at: Path, p: Path, target: Item)
    requires LeadsBy(h, item, root, at, child) && LeadsBy(h, child, at, p, target)
    ensures LeadsBy(h, item, root, p, target)
    decreases p
  {
    if !(p == at && target == child) {
      if p.Element? {
        var mid :| LeadsBy(h, child, at, p.parent, mid) && IsArray(mid) && p.index < |mid.elements|
                   && target == Get(h, mid.elements[p.index]);
        LeadsOn(h, item, root, child, at, p.parent, mid);
      } else {
        var mid :| LeadsBy(h, child, at, p.parent, mid) && mid.DictItem?
                   && HasEntry(h, mid.entries, p.member.key, target);
        LeadsOn(h, item, root, child, at, p.parent, mid);
      }
    }
  }

  /** Why a value is named in an issue. */
  predicate Explains(reason: Reason, target: Item) {
    match reason
    case SourceValueUnreadable => target.OtherItem? && !target.readable
    case UnsupportedSymbolKey =>
      target.DictItem? && exists i :: 0 <= i < |target.entries| && target.entries[i].0.OtherKey?
    case UnsupportedValueType => true  // the budget or the depth ran out here
    case _ => false
  }

  ghost predicate Points(h: Heap, item: Item, root: Path, issue: Issue) {
    exists target :: LeadsBy(h, item, root, issue.path, target) && Explains(issue.reason, target)
  }

  lemma ChildLeads(h: Heap, item: Item, path: Path, i: nat)
    requires IsContainer(item) && i < Width(item) && Children(item)[i].Child?
    ensures var c := Children(item)[i]; LeadsBy(h, item, path, Under(path, c.at), Get(h, c.ref))
  {
    assert LeadsBy(h, item, path, path, item);
    var c := Children(item)[i];
    if item.DictItem? {
      assert item.entries[i].0 == StrKey(c.at.key) && Get(h, c.ref) == Get(h, item.entries[i].1);
      assert HasEntry(h, item.entries, c.at.key, Get(h, c.ref));
    }
  }

  /** Every issue's path leads from the encoded value to the value it speaks of. */
  lemma {:induction false} IssuesPointAtLosses(h: Heap, item: Item, path: Path, depth: nat, base: nat, k: nat)
    requires k < |EncodeItem(h, item, path, depth, base).issues|
    ensures Points(h, item, path, EncodeItem(h, item, path, depth, base).issues[k])
    decreases Levels(depth), 0, 0
  {
    assert LeadsBy(h, item, path, path, item);
    if base < MAX_VALUES && depth <= MAX_DEPTH && IsContainer(item) {
      assert Children(item)[..Width(item)] == Children(item);
      KidsIssuesPoint(h, item, Width(item), path, depth + 1, base + 1, k);
    }
  }

  lemma {:induction false} KidsIssuesPoint(h: Heap, item: Item, n: nat, path: Path, depth: nat, base: nat, k: nat)
    requires IsContainer(item) && n <= Width(item)
    requires k < |EncodeKids(h, Children(item)[..n], path, depth, base).issues|
    ensures Points(h, item, path, EncodeKids(h, Children(item)[..n], path, depth, base).issues[k])
    decreases Levels(depth), 1, n
  {
    if n > 0 {
      KidsStep(h, Children(item), n - 1, path, depth, base);
      var done := EncodeKids(h, Children(item)[..n - 1], path, depth, base);
      if k < |done.issues| {
        KidsIssuesPoint(h, item, n - 1, path, depth, base, k);
      } else if Children(item)[n - 1].SkippedKey? {
        assert item.DictItem? && item.entries[n - 1].0.OtherKey?;
        assert LeadsBy(h, item, path, path, item) && Explains(UnsupportedSymbolKey, item);
      } else {
        KidIssuePoints(h, item, n - 1, path, depth, base + |done.entries|, k - |done.issues|);
      }
    }
  }

  lemma {:induction false} KidIssuePoints(h: Heap, item: Item, n: nat, path: Path, depth: nat, id: nat, k: nat)
    requires IsContainer(item) && n < Width(item) && Children(item)[n].Child?
    requires var c := Children(item)[n]; k < |EncodeItem(h, Get(h, c.ref), Under(path, c.at), depth, id).issues|
    ensures var c := Children(item)[n];
            Points(h, item, path, EncodeItem(h, Get(h, c.ref), Under(path, c.at), depth, id).issues[k])
    decreases Levels(depth), 1, 0
  {
    var c := Children(item)[n];
    var at, child := Under(path, c.at), Get(h, c.ref);
    ChildLeads(h, item, path, n);
    IssuesPointAtLosses(h, child, at, depth, id, k);
    var issue := EncodeItem(h, child, at, depth, id).issues[k];
    var target :| LeadsBy(h, child, at, issue.path, target) && Explains(issue.reason, target);
    LeadsOn(h, item, path, child, at, issue.path, target);
  }

  // ------------------------------------------------------------------
  // Unreadable values

  predicate IsUnreadable(e: Entry) {
    e.body.Unavailable? && e.body.reason == SourceValueUnreadable
  }

  /** How many of the first n issues tell of an unreadable value. */
  function Told(issues: seq<Issue>, n: nat): nat
    requires n <= |issues|
  {
    if n == 0 then 0 else Told(issues, n - 1) + (if issues[n - 1].reason == SourceValueUnreadable then 1 else 0)
  }

  /** How many of the first n entries are marked unreadable. */
  function Marked(entries: seq<Entry>, n: nat): nat
    requires n <= |entries|
  {
    if n == 0 then 0 else Marked(entries, n - 1) + (if IsUnreadable(entries[n - 1]) then 1 else 0)
  }

  /** As many issues of unreadable values as entries marked so. */
  predicate Balanced(entries: seq<Entry>, issues: seq<Issue>) {
    Told(issues, |issues|) == Marked(entries, |entries|)
  }

  lemma {:induction false} ToldPrefix(a: seq<Issue>, b: seq<Issue>, n: nat)
    requires n <= |a|
    ensures Told(a + b, n) == Told(a, n)
  {
    if n > 0 { ToldPrefix(a, b, n - 1); }
  }

  lemma {:induction false} ToldConcat(a: seq<Issue>, b: seq<Issue>, n: nat)
    requires n <= |b|
    ensures Told(a + b, |a| + n) == Told(a, |a|) + Told(b, n)
  {
    if n == 0 { ToldPrefix(a, b, |a|); } else { ToldConcat(a, b, n - 1); }
  }

  lemma {:induction false} MarkedPrefix(a: seq<Entry>, b: seq<Entry>, n: nat)
    requires n <= |a|
    ensures Marked(a + b, n) == Marked(a, n)
  {
    if n > 0 { MarkedPrefix(a, b, n - 1); }
  }

  lemma {:induction false} MarkedConcat(a: seq<Entry>, b: seq<Entry>, n: nat)
    requires n <= |b|
    ensures Marked(a + b, |a| + n) == Marked(a, |a|) + Marked(b, n)
  {
    if n == 0 { MarkedPrefix(a, b, |a|); } else { MarkedConcat(a, b, n - 1); }
  }

  lemma BalancedConcat(a: seq<Entry>, i: seq<Issue>, b: seq<Entry>, j: seq<Issue>)
    requires Balanced(a, i) && Balanced(b, j)
    ensures Balanced(a + b, i + j)
  {
    ToldConcat(i, j, |j|);
    MarkedConcat(a, b, |b|);
  }

  lemma KeyUntold(entries: seq<Entry>, issues: seq<Issue>, path: Path)
    requires Balanced(entries, issues)
    ensures Balanced(entries, issues + [Issue(path, UnsupportedSymbolKey)])
  {
    ToldPrefix(issues, [Issue(path, UnsupportedSymbolKey)], |issues|);
  }

  /** The entry of a value that is no container. */
  lemma LeavesAreMarked(item: Item, path: Path, base: nat)
    requires !IsContainer(item)
    ensures var e := EncodeLeaf(item, path, base);
            && |e.entries| == 1 && e.entries[0].id == base
            && (e.entries[0].body.Unavailable? <==> item.OtherItem?)
            && (item.OtherItem? ==>
                  e.entries[0].body.reason == if item.readable then UnsupportedValueType else SourceValueUnreadable)
            && (e.issues != [] <==> item.OtherItem? && !item.readable)
            && Balanced(e.entries, e.issues)
  {
    var e := EncodeLeaf(item, path, base);
    assert Marked(e.entries, 0) == 0 && Told(e.issues, 0) == 0;
  }

  lemma BalancedShell(id: nat, item: Item, links: seq<Link>)
    ensures Balanced([Shell(id, item, links)], [])
  {
    assert Marked([Shell(id, item, links)], 0) == 0;
  }

  lemma BalancedOverBudget(base: nat, name: PyType, path: Path)
    ensures Balanced([Entry(base, Unavailable(UnsupportedValueType, name))], [Issue(path, UnsupportedValueType)])
  {
    assert Marked([Entry(base, Unavailable(UnsupportedValueType, name))], 0) == 0;
    assert Told([Issue(path, UnsupportedValueType)], 0) == 0;
  }

  /** One issue is recorded per entry that is marked unreadable. */
  lemma {:induction false} UnreadableRecorded(h: Heap, item: Item, path: Path, depth: nat, base: nat)
    ensures var e := EncodeItem(h, item, path, depth, base); Balanced(e.entries, e.issues)
    decreases Levels(depth), 0, 0
  {
    if base >= MAX_VALUES || depth > MAX_DEPTH {
      BalancedOverBudget(base, TypeName(item), path);
    } else if IsContainer(item) {
      var cs := Children(item);
      UnreadableKidsRecorded(h, cs, |cs|, path, depth + 1, base + 1);
      assert cs[..|cs|] == cs;
      var kids := EncodeKids(h, cs, path, depth + 1, base + 1);
      BalancedShell(base, item, kids.links);
      BalancedConcat([Shell(base, item, kids.links)], [], kids.entries, kids.issues);
      assert [] + kids.issues == kids.issues;
    } else {
      LeavesAreMarked(item, path, base);
    }
  }

  lemma BalancedNone()
    ensures Balanced([], [])
  {
  }

  lemma BalancedNext(done: EncodedKids, e: Encoded, next: EncodedKids)
    requires Balanced(done.entries, done.issues) && Balanced(e.entries, e.issues)
    requires next.entries == done.entries + e.entries && next.issues == done.issues + e.issues
    ensures Balanced(next.entries, next.issues)
  {
    BalancedConcat(done.entries, done.issues, e.entries, e.issues);
  }

  lemma BalancedSkipped(done: EncodedKids, path: Path, next: EncodedKids)
    requires Balanced(done.entries, done.issues)
    requires next == done.(issues := done.issues + [Issue(path, UnsupportedSymbolKey)])
    ensures Balanced(next.entries, next.issues)
  {
    KeyUntold(done.entries, done.issues, path);
  }

  lemma SkippedKeepsBalance(h: Heap, cs: seq<Child>, n: nat, path: Path, depth: nat, base: nat)
    requires n < |cs| && cs[n].SkippedKey?
    requires var done := EncodeKids(h, cs[..n], path, depth, base); Balanced(done.entries, done.issues)
    ensures var next := EncodeKids(h, cs[..n + 1], path, depth, base); Balanced(next.entries, next.issues)
  {
    KidsStep(h, cs, n, path, depth, base);
    BalancedSkipped(EncodeKids(h, cs[..n], path, depth, base), path, EncodeKids(h, cs[..n + 1], path, depth, base));
  }

  lemma {:induction false} ChildKeepsBalance(h: Heap, cs: seq<Child>, n: nat, path: Path, depth: nat, base: nat)
    requires n < |cs| && cs[n].Child?
    requires var done := EncodeKids(h, cs[..n], path, depth, base); Balanced(done.entries, done.issues)
    ensures var next := EncodeKids(h, cs[..n + 1], path, depth, base); Balanced(next.entries, next.issues)
    decreases Levels(depth), 1, 0
  {
    KidsStep(h, cs, n, path, depth, base);
    var done := EncodeKids(h, cs[..n], path, depth, base);
    var item, at, id := Get(h, cs[n].ref), Under(path, cs[n].at), base + |done.entries|;
    UnreadableRecorded(h, item, at, depth, id);
    BalancedNext(done, EncodeItem(h, item, at, depth, id), EncodeKids(h, cs[..n + 1], path, depth, base));
  }

  lemma {:induction false} UnreadableKidsRecorded(h: Heap, cs: seq<Child>, n: nat, path: Path, depth: nat, base: nat)
    requires n <= |cs|
    ensures var e := EncodeKids(h, cs[..n], path, depth, base); Balanced(e.entries, e.issues)
    decreases Levels(depth), 1, n
  {
    if n == 0 {
      assert EncodeKids(h, cs[..0], path, depth, base) == EncodedKids([], [], []);
      BalancedNone();
    } else {
      UnreadableKidsRecorded(h, cs, n - 1, path, depth, base);
      if cs[n - 1].SkippedKey? {
        SkippedKeepsBalance(h, cs, n - 1, path, depth, base);
      } else {
        ChildKeepsBalance(h, cs, n - 1, path, depth, base);
      }
    }
  }
}
