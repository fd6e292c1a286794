/** When a value survives encoding unchanged, and how large the table can grow. */
module ValueRoundTrip {
  import opened PyHeap
  import opened ValueEncoding

  // ------------------------------------------------------------------
  // The source value itself, unfolded to n levels

  function Unfold(h: Heap, item: Item, n: nat): Tree
    decreases n, 0, 0
  {
    if n == 0 then Lost(TypeName(item))
    else if IsContainer(item) then Node(!item.DictItem?, UnfoldKids(h, Children(item), n - 1))
    else if item.ScalarItem? then Leaf(item.scalar)
    else Lost(TypeName(item))
  }

  function UnfoldKids(h: Heap, cs: seq<Child>, n: nat): (r: seq<Kid>)
    ensures |r| == |cs|
    decreases n, 1, |cs|
  {
    if cs == [] then [] else
    var k := |cs| - 1;
    UnfoldKids(h, cs[..k], n) + [if cs[k].SkippedKey? then LostKey else Kid(cs[k].at, Unfold(h, Get(h, cs[k].ref), n))]
  }

  /** No mark of a loss anywhere. */
  predicate Lossless(t: Tree)
    decreases t, 1
  {
    match t
    case Leaf(_) => true
    case Lost(_) => false
    case Node(_, kids) => LosslessKids(kids)
  }

  predicate LosslessKids(kids: seq<Kid>)
    decreases kids, 0
  {
    if kids == [] then true else
    var last := kids[|kids| - 1];
    last.Kid? && (assert last.tree < last; Lossless(last.tree)) && LosslessKids(kids[..|kids| - 1])
  }

  function Height(t: Tree): (r: nat)
    ensures r > 0
    decreases t, 1
  {
    if t.Node? then 1 + HeightKids(t.kids) else 1
  }

  function HeightKids(kids: seq<Kid>): nat
    decreases kids, 0
  {
    if kids == [] then 0 else
    var last := kids[|kids| - 1];
    var rest := HeightKids(kids[..|kids| - 1]);
    if last.Kid? then
      assert last.tree < last;
      var here := Height(last.tree);
      if here > rest then here else rest
    else rest
  }

  /** A faithful reading without losses and left-out keys is the whole value, at every unfolding depth. */
  lemma {:induction false} FaithfulIsExact(h: Heap, item: Item, t: Tree, n: nat)
    requires Faithful(h, item, t) && Lossless(t) && Skipped(h, item, t) == 0
    requires n >= Height(t)
    ensures t == Unfold(h, item, n)
    decreases t, 1
  {
    if t.Node? { FaithfulKidsAreExact(h, Children(item), t.kids, n - 1); }
  }

  lemma {:induction false} FaithfulKidsAreExact(h: Heap, cs: seq<Child>, kids: seq<Kid>, n: nat)
    requires FaithfulKids(h, cs, kids) && LosslessKids(kids) && SkippedKids(h, cs, kids) == 0
    requires n >= HeightKids(kids)
    ensures kids == UnfoldKids(h, cs, n)
    decreases kids, 0
  {
    if cs != [] {
      var k := |cs| - 1;
      var last := kids[|kids| - 1];
      assert last.tree < last;
      FaithfulIsExact(h, Get(h, cs[k].ref), last.tree, n);
      FaithfulKidsAreExact(h, cs[..k], kids[..|kids| - 1], n);
    }
  }

  /**
   Round trip: if no entry reached from the returned id is unavailable and no
   issue was added, decoding recovers the source value exactly, however deep
   the source is unfolded.
   */
  lemma ValueRoundTrips(h: Heap, item: Item, path: Path, depth: nat, base: nat, table: seq<Entry>, n: nat)
    requires Holds(table, base, EncodeItem(h, item, path, depth, base).entries)
    requires EncodeItem(h, item, path, depth, base).issues == []
    requires Lossless(Decode(table, base))
    requires n >= Height(Decode(table, base))
    ensures Decode(table, base) == Unfold(h, item, n)
  {
    SkippedKeysRecorded(h, item, path, depth, base, table);
    FaithfulIsExact(h, item, Decode(table, base), n);
  }

  // ------------------------------------------------------------------
  // Exactly when no issue is added

  /** Within n levels there is only readable data under string keys. */
  predicate Intact(h: Heap, item: Item, n: nat)
    decreases n, 0, 0
  {
    && n > 0
    && (IsContainer(item) ==> IntactKids(h, Children(item), n - 1))
    && (item.OtherItem? ==> item.readable)
  }

  predicate IntactKids(h: Heap, cs: seq<Child>, n: nat)
    decreases n, 1, |cs|
  {
    if cs == [] then true else
    var k := |cs| - 1;
    IntactKids(h, cs[..k], n) && cs[k].Child? && Intact(h, Get(h, cs[k].ref), n)
  }

  /** How many entries the first n levels need. */
  function Size(h: Heap, item: Item, n: nat): (r: nat)
    ensures r > 0
    decreases n, 0, 0
  {
    if n > 0 && IsContainer(item) then 1 + SizeKids(h, Children(item), n - 1) else 1
  }

  function SizeKids(h: Heap, cs: seq<Child>, n: nat): nat
    decreases n, 1, |cs|
  {
    if cs == [] then 0 else
    var k := |cs| - 1;
    SizeKids(h, cs[..k], n) + (if cs[k].Child? then Size(h, Get(h, cs[k].ref), n) else 0)
  }

  /** No issue is added exactly when the value is intact within the depth limit and fits the remaining budget. */
  lemma {:induction false} NoIssueExactly(h: Heap, item: Item, path: Path, depth: nat, base: nat)
    ensures var e := EncodeItem(h, item, path, depth, base);
            && (e.issues == [] <==>
                  Intact(h, item, Levels(depth)) && base + Size(h, item, Levels(depth)) <= 4096)
            && (e.issues == [] ==> |e.entries| == Size(h, item, Levels(depth)))
    decreases Levels(depth), 0, 0
  {
    if base < MAX_VALUES && depth <= MAX_DEPTH && IsContainer(item) {
      var kids := EncodeKids(h, Children(item), path, depth + 1, base + 1);
      NoIssueInKidsExactly(h, Children(item), path, depth + 1, base + 1);
      assert EncodeItem(h, item, path, depth, base).issues == kids.issues;
      assert Levels(depth) == Levels(depth + 1) + 1;
      ContainerNeeds(h, item, Levels(depth + 1));
    }
  }

  lemma ContainerNeeds(h: Heap, item: Item, n: nat)
    requires IsContainer(item)
    ensures Intact(h, item, n + 1) <==> IntactKids(h, Children(item), n)
    ensures Size(h, item, n + 1) == 1 + SizeKids(h, Children(item), n)
  {
  }

  lemma {:induction false} NoIssueInKidsExactly(h: Heap, cs: seq<Child>, path: Path, depth: nat, base: nat)
    requires base <= MAX_VALUES
    ensures var e := EncodeKids(h, cs, path, depth, base);
            && (e.issues == [] <==>
                  IntactKids(h, cs, Levels(depth)) && base + SizeKids(h, cs, Levels(depth)) <= MAX_VALUES)
            && (e.issues == [] ==> |e.entries| == SizeKids(h, cs, Levels(depth)))
    decreases Levels(depth), 1, |cs|
  {
    if cs != [] {
      var k := |cs| - 1;
      NoIssueInKidsExactly(h, cs[..k], path, depth, base);
      var done := EncodeKids(h, cs[..k], path, depth, base);
      if cs[k].Child? {
        NoIssueExactly(h, Get(h, cs[k].ref), Under(path, cs[k].at), depth, base + |done.entries|);
      }
    }
  }

  /** Without an issue the table holds the source's unfolding: only values of unsupported types are marked lost. */
  lemma {:induction false} NoIssueRecovers(
    h: Heap, item: Item, path: Path, depth: nat, base: nat, table: seq<Entry>, n: nat)
    requires EncodeItem(h, item, path, depth, base).issues == []
    requires Holds(table, base, EncodeItem(h, item, path, depth, base).entries)
    requires n >= Levels(depth)
    ensures Decode(table, base) == Unfold(h, item, n)
    decreases Levels(depth), 1, 0
  {
    assert base < MAX_VALUES && depth <= MAX_DEPTH;
    if IsContainer(item) {
      NoIssueRecoversContainer(h, item, path, depth, base, table, n);
    } else {
      LeafDecodes(item, path, base, table);
    }
  }

  lemma {:induction false} NoIssueRecoversContainer(
    h: Heap, item: Item, path: Path, depth: nat, base: nat, table: seq<Entry>, n: nat)
    requires base < MAX_VALUES && depth <= MAX_DEPTH && IsContainer(item) && n >= Levels(depth)
    requires EncodeItem(h, item, path, depth, base).issues == []
    requires Holds(table, base, EncodeItem(h, item, path, depth, base).entries)
    ensures Decode(table, base) == Unfold(h, item, n)
    decreases Levels(depth), 0
  {
    ContainerHolds(h, item, path, depth, base, table);
    NoIssueRecoversKids(h, Children(item), path, depth + 1, base + 1, table, base, n - 1);
    assert Unfold(h, item, n) == Node(!item.DictItem?, UnfoldKids(h, Children(item), n - 1));
  }

  lemma {:induction false} NoIssueRecoversKids(h: Heap, cs: seq<Child>, path: Path, depth: nat, base: nat,
                                               table: seq<Entry>, parent: nat, n: nat)
    requires parent < base && parent < |table| && n >= Levels(depth)
    requires EncodeKids(h, cs, path, depth, base).issues == []
    requires Holds(table, base, EncodeKids(h, cs, path, depth, base).entries)
    ensures DecodeLinks(table, parent, EncodeKids(h, cs, path, depth, base).links) == UnfoldKids(h, cs, n)
    decreases Levels(depth), 2, |cs|
  {
    if cs != [] {
      var k := |cs| - 1;
      assert cs[k].Child?;
      var id := LastKid(h, cs, path, depth, base, table, parent);
      NoIssueRecoversKids(h, cs[..k], path, depth, base, table, parent, n);
      NoIssueRecovers(h, Get(h, cs[k].ref), Under(path, cs[k].at), depth, id, table, n);
    }
  }

  /** A value known in advance to be intact and small enough is recovered exactly. */
  lemma SmallValuesRecovered(h: Heap, item: Item, path: Path, depth: nat, base: nat, table: seq<Entry>, n: nat)
    requires Intact(h, item, Levels(depth)) && base + Size(h, item, Levels(depth)) <= MAX_VALUES
    requires Holds(table, base, EncodeItem(h, item, path, depth, base).entries)
    requires n >= Levels(depth)
    ensures Decode(table, base) == Unfold(h, item, n)
  {
    NoIssueExactly(h, item, path, depth, base);
    NoIssueRecovers(h, item, path, depth, base, table, n);
  }

  // ------------------------------------------------------------------
  // The shape and the size of the table

  /** Ids are positions, links lead forward inside the segment, and everything past the budget is unavailable. */
  ghost predicate WellFormed(entries: seq<Entry>, base: nat) {
    forall k :: 0 <= k < |entries| ==> EntryOk(entries[k], base + k, base + |entries|)
  }

  ghost predicate EntryOk(e: Entry, at: nat, end: nat) {
    && e.id == at
    && (at >= MAX_VALUES ==> e.body.Unavailable?)
    && (e.body.ContainerValue? ==> LinksWithin(e.body.links, at, end))
  }

  ghost predicate LinksWithin(links: seq<Link>, after: nat, end: nat) {
    forall l :: 0 <= l < |links| ==> after < links[l].target < end
  }

  lemma WellFormedConcat(a: seq<Entry>, b: seq<Entry>, base: nat)
    requires WellFormed(a, base) && WellFormed(b, base + |a|)
    ensures WellFormed(a + b, base)
  {
    forall k | 0 <= k < |a + b|
      ensures EntryOk((a + b)[k], base + k, base + |a + b|)
    {
      if k < |a| {
        assert EntryOk(a[k], base + k, base + |a|);
      } else {
        assert EntryOk(b[k - |a|], base + |a| + (k - |a|), base + |a| + |b|);
      }
    }
  }

  lemma {:induction false} EncodedWellFormed(h: Heap, item: Item, path: Path, depth: nat, base: nat)
    ensures WellFormed(EncodeItem(h, item, path, depth, base).entries, base)
    decreases Levels(depth), 0, 0
  {
    if base < MAX_VALUES && depth <= MAX_DEPTH && IsContainer(item) {
      EncodedKidsWellFormed(h, Children(item), path, depth + 1, base + 1);
      var kids := EncodeKids(h, Children(item), path, depth + 1, base + 1);
      HeadWellFormed(Shell(base, item, kids.links), kids.entries, base);
    }
  }

  lemma HeadWellFormed(head: Entry, rest: seq<Entry>, base: nat)
    requires WellFormed(rest, base + 1) && EntryOk(head, base, base + 1 + |rest|)
    ensures WellFormed([head] + rest, base)
  {
    var entries := [head] + rest;
    forall k | 0 <= k < |entries|
      ensures EntryOk(entries[k], base + k, base + |entries|)
    {
      if k > 0 { assert EntryOk(rest[k - 1], base + 1 + (k - 1), base + 1 + |rest|); }
    }
  }

  lemma {:induction false} EncodedKidsWellFormed(h: Heap, cs: seq<Child>, path: Path, depth: nat, base: nat)
    requires base > 0
    ensures var kids := EncodeKids(h, cs, path, depth, base);
            WellFormed(kids.entries, base) && LinksWithin(kids.links, base - 1, base + |kids.entries|)
    decreases Levels(depth), 1, |cs|
  {
    if cs != [] {
      var k := |cs| - 1;
      EncodedKidsWellFormed(h, cs[..k], path, depth, base);
      var done := EncodeKids(h, cs[..k], path, depth, base);
      if cs[k].Child? {
        var e := EncodeItem(h, Get(h, cs[k].ref), Under(path, cs[k].at), depth, base + |done.entries|);
        EncodedWellFormed(h, Get(h, cs[k].ref), Under(path, cs[k].at), depth, base + |done.entries|);
        WellFormedConcat(done.entries, e.entries, base);
      }
    }
  }

  ghost predicate NoWiderThan(h: Heap, w: nat) {
    forall r :: r in h ==> Width(h[r]) <= w
  }

  /**
   Amortised bound: a call on a full table appends one entry; any other call,
   even on a container that holds itself, leaves at most
   4096 + (levels left) * w entries.
   */
  lemma {:induction false} EntriesBounded(h: Heap, item: Item, path: Path, depth: nat, base: nat, w: nat)
    requires NoWiderThan(h, w) && Width(item) <= w
    ensures var n := |EncodeItem(h, item, path, depth, base).entries|;
            && (base >= MAX_VALUES ==> n == 1)
            && (base < MAX_VALUES ==> base + n <= MAX_VALUES + Levels(depth) * w)
    decreases Levels(depth), 0, 0
  {
    if base < MAX_VALUES && depth <= MAX_DEPTH {
      OneLevelMore(Levels(depth + 1), w);
      if IsContainer(item) {
        KidsBounded(h, Children(item), path, depth + 1, base + 1, w);
      }
    }
  }

  /** The bound for a top-level call. */
  lemma TopLevelBounded(h: Heap, item: Item, path: Path, base: nat, w: nat)
    requires NoWiderThan(h, w) && Width(item) <= w
    ensures var n := |EncodeItem(h, item, path, 0, base).entries|;
            && (base >= MAX_VALUES ==> n == 1)
            && (base < MAX_VALUES ==> base + n <= 4096 + 33 * w)
  {
    EntriesBounded(h, item, path, 0, base, w);
    assert Levels(0) == 33;
  }

  lemma OneLevelMore(levels: nat, w: nat)
    ensures (levels + 1) * w == levels * w + w
  {
  }

  lemma ReferencedWidth(h: Heap, r: Ref, w: nat)
    requires NoWiderThan(h, w)
    ensures Width(Get(h, r)) <= w
  {
  }

  lemma {:induction false} KidsBounded(h: Heap, cs: seq<Child>, path: Path, depth: nat, base: nat, w: nat)
    requires NoWiderThan(h, w) && base <= MAX_VALUES
    ensures base + |EncodeKids(h, cs, path, depth, base).entries| <= MAX_VALUES + Levels(depth) * w + |cs|
    decreases Levels(depth), 1, |cs|
  {
    var room := Levels(depth) * w;
    if cs != [] {
      var k := |cs| - 1;
      KidsBounded(h, cs[..k], path, depth, base, w);
      assert cs[..k + 1] == cs;
      KidsStep(h, cs, k, path, depth, base);
      var end := base + |EncodeKids(h, cs[..k], path, depth, base).entries|;
      if cs[k].Child? {
        ReferencedWidth(h, cs[k].ref, w);
        EntriesBounded(h, Get(h, cs[k].ref), Under(path, cs[k].at), depth, end, w);
        var n := |EncodeItem(h, Get(h, cs[k].ref), Under(path, cs[k].at), depth, end).entries|;
        assert end <= MAX_VALUES + room + k;
        assert end + n <= MAX_VALUES + room + |cs|;
      }
    }
  }
}
