/**
 Encoding argument values into a flat table: `DiagnosticGraph.value`.

 `EncodeItem` gives the entries and issues one call appends, as a function of
 the table's length before the call.
 */
module ValueEncoding {
  import opened Common
  import opened PyHeap

  const MAX_VALUES: nat := 4096
  const MAX_DEPTH: nat := 32
  const SAFE_INTEGER: int := 9007199254740991  // 2 ** 53 - 1

  // ------------------------------------------------------------------
  // The table

  datatype Member = Message | Stack | Args | Cause | Exceptions | Keyed(key: string)

  datatype ValueField = Expected | Actual | Value

  datatype Path =
    | RootError
    | Field(parent: Path, member: Member)
    | Element(parent: Path, index: nat)
    | ErrorField(index: nat, field: ValueField)
    | WholeError

  function Under(p: Path, at: Label): Path {
    match at
    case Index(i) => Element(p, i)
    case Name(key) => Field(p, Keyed(key))
  }

  datatype Reason =
    | UnsupportedValueType | UnsupportedSymbolKey | SourceValueUnreadable | CaptureBudgetExceeded | ErrorNotSupplied

  datatype Issue = Issue(path: Path, reason: Reason)

  datatype NonfiniteText = NaNText | InfinityText | MinusInfinityText

  datatype Wire =
    | Null
    | Boolean(b: bool)
    | NumberInt(i: int)
    | NumberFloat(r: real)
    | Bigint(text: string)
    | Nonfinite(kind: NonfiniteText)
    | Text(s: string)

  datatype Link = Link(at: Label, target: nat)

  datatype Body =
    | ScalarValue(wire: Wire)
    | ContainerValue(isArray: bool, length: Option<nat>, links: seq<Link>)  // objects record no length
    | Unavailable(reason: Reason, sourceType: PyType)

  /** Entry `value-id`. */
  datatype Entry = Entry(id: nat, body: Body)

  function EncodeScalar(s: Scalar): Wire {
    match s
    case NoneScalar => Null
    case BoolScalar(b) => Boolean(b)
    case IntScalar(i) => if -SAFE_INTEGER <= i <= SAFE_INTEGER then NumberInt(i) else Bigint(Decimal(i))
    case FloatScalar(Finite(r)) => NumberFloat(r)
    case FloatScalar(NaN) => Nonfinite(NaNText)
    case FloatScalar(PosInf) => Nonfinite(InfinityText)
    case FloatScalar(NegInf) => Nonfinite(MinusInfinityText)
    case StrScalar(t) => Text(t)
  }

  datatype Encoded = Encoded(entries: seq<Entry>, issues: seq<Issue>)

  datatype EncodedKids = EncodedKids(entries: seq<Entry>, issues: seq<Issue>, links: seq<Link>)

  /** How many levels of nesting are still allowed at a depth. */
  function Levels(depth: nat): (n: nat)
    ensures depth + n == 33 || (depth > 32 && n == 0)
  {
    if depth > MAX_DEPTH then 0 else MAX_DEPTH + 1 - depth
  }

  function EncodeLeaf(item: Item, path: Path, base: nat): Encoded
    requires !IsContainer(item)
  {
    if item.ScalarItem? then
      Encoded([Entry(base, ScalarValue(EncodeScalar(item.scalar)))], [])
    else if item.readable then
      Encoded([Entry(base, Unavailable(UnsupportedValueType, TypeName(item)))], [])
    else
      Encoded([Entry(base, Unavailable(SourceValueUnreadable, TypeName(item)))], [Issue(path, SourceValueUnreadable)])
  }

  /** A container's own entry. */
  function Shell(id: nat, item: Item, links: seq<Link>): Entry {
    Entry(id, ContainerValue(!item.DictItem?, if item.DictItem? then None else Some(Width(item)), links))
  }

  /** What `value(item, path, depth)` appends to a table of `base` entries; the id it returns is `base`. */
  function EncodeItem(h: Heap, item: Item, path: Path, depth: nat, base: nat): (r: Encoded)
    ensures |r.entries| > 0
    decreases Levels(depth), 0, 0
  {
    if base >= MAX_VALUES || depth > MAX_DEPTH then
      Encoded([Entry(base, Unavailable(UnsupportedValueType, TypeName(item)))], [Issue(path, UnsupportedValueType)])
    else if IsContainer(item) then
      var kids := EncodeKids(h, Children(item), path, depth + 1, base + 1);
      Encoded([Shell(base, item, kids.links)] + kids.entries, kids.issues)
    else
      EncodeLeaf(item, path, base)
  }

  /** What the loop over a container's children appends. */
  function EncodeKids(h: Heap, cs: seq<Child>, path: Path, depth: nat, base: nat): EncodedKids
    decreases Levels(depth), 1, |cs|
  {
    if cs == [] then EncodedKids([], [], []) else
    var n := |cs| - 1;
    var done := EncodeKids(h, cs[..n], path, depth, base);
    match cs[n]
    case SkippedKey =>
      done.(issues := done.issues + [Issue(path, UnsupportedSymbolKey)])
    case Child(at, ref) =>
      var id := base + |done.entries|;
      var e := EncodeItem(h, Get(h, ref), Under(path, at), depth, id);
      EncodedKids(done.entries + e.entries, done.issues + e.issues, done.links + [Link(at, id)])
  }

  lemma KidsStep(h: Heap, cs: seq<Child>, index: nat, path: Path, depth: nat, base: nat)
    requires index < |cs|
    ensures var done := EncodeKids(h, cs[..index], path, depth, base);
            var next := EncodeKids(h, cs[..index + 1], path, depth, base);
            if cs[index].SkippedKey? then next == done.(issues := done.issues + [Issue(path, UnsupportedSymbolKey)])
            else
              var id := base + |done.entries|;
              var e := EncodeItem(h, Get(h, cs[index].ref), Under(path, cs[index].at), depth, id);
              next
              == EncodedKids(done.entries + e.entries, done.issues + e.issues, done.links + [Link(cs[index].at, id)])
  {
    assert cs[..index + 1][..index] == cs[..index];
  }

  // ------------------------------------------------------------------
  // Reading the table back

  datatype Tree = Leaf(scalar: Scalar) | Node(isArray: bool, kids: seq<Kid>) | Lost(sourceType: PyType)

  datatype Kid = Kid(at: Label, tree: Tree) | LostKey

  function DecodeScalar(w: Wire): Scalar {
    match w
    case Null => NoneScalar
    case Boolean(b) => BoolScalar(b)
    case NumberInt(i) => IntScalar(i)
    case NumberFloat(r) => FloatScalar(Finite(r))
    case Bigint(t) => IntScalar(ParseInt(t))
    case Nonfinite(t) => FloatScalar(if t.NaNText? then NaN else if t.InfinityText? then PosInf else NegInf)
    case Text(t) => StrScalar(t)
  }

  lemma ScalarRoundTrip(s: Scalar)
    ensures DecodeScalar(EncodeScalar(s)) == s
  {
    if s.IntScalar? { ParseIntDecimal(s.i); }
  }

  /** The value at entry i, following links to later entries. */
  function Decode(table: seq<Entry>, i: nat): Tree
    decreases |table| - i, 1, 0
  {
    if i >= |table| then Lost(NoneType) else
    match table[i].body
    case ScalarValue(w) => Leaf(DecodeScalar(w))
    case Unavailable(_, t) => Lost(t)
    case ContainerValue(isArray, _, links) => Node(isArray, DecodeLinks(table, i, links))
  }

  function DecodeLinks(table: seq<Entry>, i: nat, links: seq<Link>): seq<Kid>
    requires i < |table|
    decreases |table| - i, 0, |links|
  {
    if links == [] then [] else
    var n := |links| - 1;
    DecodeLinks(table, i, links[..n])
    + [Kid(links[n].at, if links[n].target > i then Decode(table, links[n].target) else Lost(NoneType))]
  }

  /** The table holds these entries from position `base` on. */
  ghost predicate Holds(table: seq<Entry>, base: nat, entries: seq<Entry>) {
    base + |entries| <= |table| && table[base..base + |entries|] == entries
  }

  lemma HoldsHead(table: seq<Entry>, base: nat, entries: seq<Entry>)
    requires Holds(table, base, entries) && |entries| > 0
    ensures table[base] == entries[0]
  {
    assert table[base..base + |entries|][0] == entries[0];
  }

  lemma HoldsParts(table: seq<Entry>, base: nat, a: seq<Entry>, b: seq<Entry>)
    requires Holds(table, base, a + b)
    ensures Holds(table, base, a) && Holds(table, base + |a|, b)
  {
    assert table[base..base + |a|] == table[base..base + |a + b|][..|a|];
    assert table[base + |a|..base + |a| + |b|] == table[base..base + |a + b|][|a|..];
  }

  // ------------------------------------------------------------------
  // Faithfulness: what is read back is the source value, except for subvalues
  // marked Lost and keys that are not strings

  ghost predicate Faithful(h: Heap, item: Item, t: Tree)
    decreases t, 1
  {
    match t
    case Leaf(s) => item == ScalarItem(s)
    case Lost(name) => name == TypeName(item)
    case Node(isArray, kids) =>
      IsContainer(item) && isArray == !item.DictItem? && FaithfulKids(h, Children(item), kids)
  }

  ghost predicate FaithfulKids(h: Heap, cs: seq<Child>, kids: seq<Kid>)
    decreases kids, 0, |cs|
  {
    if cs == [] then kids == [] else
    var n := |cs| - 1;
    match cs[n]
    case SkippedKey => FaithfulKids(h, cs[..n], kids)
    case Child(at, ref) =>
      && |kids| > 0
      && var last := kids[|kids| - 1];
         && last.Kid? && last.at == at
         && (assert last.tree < last; Faithful(h, Get(h, ref), last.tree))
         && FaithfulKids(h, cs[..n], kids[..|kids| - 1])
  }

  /** How many keys a faithful tree leaves out. */
  ghost function Skipped(h: Heap, item: Item, t: Tree): nat
    requires Faithful(h, item, t)
    decreases t, 1
  {
    if t.Node? then SkippedKids(h, Children(item), t.kids) else 0
  }

  ghost function SkippedKids(h: Heap, cs: seq<Child>, kids: seq<Kid>): nat
    requires FaithfulKids(h, cs, kids)
    decreases kids, 0, |cs|
  {
    if cs == [] then 0 else
    var n := |cs| - 1;
    match cs[n]
    case SkippedKey => 1 + SkippedKids(h, cs[..n], kids)
    case Child(_, ref) =>
      var last := kids[|kids| - 1];
      assert last.tree < last;
      SkippedKids(h, cs[..n], kids[..|kids| - 1]) + Skipped(h, Get(h, ref), last.tree)
  }

  function KeyIssues(issues: seq<Issue>): nat {
    if issues == [] then 0
    else KeyIssues(issues[..|issues| - 1]) + (if issues[|issues| - 1].reason == UnsupportedSymbolKey then 1 else 0)
  }

  lemma KeyIssuesOne(issues: seq<Issue>)
    requires |issues| == 1
    ensures KeyIssues(issues) == if issues[0].reason == UnsupportedSymbolKey then 1 else 0
  {
    assert issues[..0] == [];
  }

  lemma {:induction false} KeyIssuesConcat(a: seq<Issue>, b: seq<Issue>)
    ensures KeyIssues(a + b) == KeyIssues(a) + KeyIssues(b)
  {
    if b == [] {
      assert a + b == a;
    } else {
      assert (a + b)[..|a + b| - 1] == a + b[..|b| - 1];
      KeyIssuesConcat(a, b[..|b| - 1]);
    }
  }

  /** For every heap, cyclic or not: the entries read back to the source value up to marked losses. */
  lemma {:induction false} EncodingFaithful(h: Heap, item: Item, path: Path, depth: nat, base: nat, table: seq<Entry>)
    requires Holds(table, base, EncodeItem(h, item, path, depth, base).entries)
    ensures Faithful(h, item, Decode(table, base))
    decreases Levels(depth), 0, 1
  {
    if base >= MAX_VALUES || depth > MAX_DEPTH {
      OverBudgetDecodes(h, item, path, depth, base, table);
    } else if IsContainer(item) {
      ContainerFaithful(h, item, path, depth, base, table);
    } else {
      LeafDecodes(item, path, base, table);
    }
  }

  lemma {:induction false} ContainerFaithful(h: Heap, item: Item, path: Path, depth: nat, base: nat, table: seq<Entry>)
    requires base < MAX_VALUES && depth <= MAX_DEPTH && IsContainer(item)
    requires Holds(table, base, EncodeItem(h, item, path, depth, base).entries)
    ensures Faithful(h, item, Decode(table, base))
    decreases Levels(depth), 0, 0
  {
    ContainerHolds(h, item, path, depth, base, table);
    KidsFaithful(h, Children(item), path, depth + 1, base + 1, table, base);
    NodeFaithful(h, item, DecodeLinks(table, base, EncodeKids(h, Children(item), path, depth + 1, base + 1).links));
  }

  lemma NodeFaithful(h: Heap, item: Item, kids: seq<Kid>)
    requires IsContainer(item) && FaithfulKids(h, Children(item), kids)
    ensures Faithful(h, item, Node(!item.DictItem?, kids))
  {
  }

  lemma OverBudgetDecodes(h: Heap, item: Item, path: Path, depth: nat, base: nat, table: seq<Entry>)
    requires base >= MAX_VALUES || depth > MAX_DEPTH
    requires Holds(table, base, EncodeItem(h, item, path, depth, base).entries)
    ensures base < |table| && Decode(table, base) == Lost(TypeName(item))
  {
    HoldsHead(table, base, EncodeItem(h, item, path, depth, base).entries);
  }

  lemma LeafDecodes(item: Item, path: Path, base: nat, table: seq<Entry>)
    requires !IsContainer(item) && Holds(table, base, EncodeLeaf(item, path, base).entries)
    ensures base < |table|
    ensures Decode(table, base) == if item.ScalarItem? then Leaf(item.scalar) else Lost(TypeName(item))
  {
    HoldsHead(table, base, EncodeLeaf(item, path, base).entries);
    if item.ScalarItem? { ScalarRoundTrip(item.scalar); }
  }

  /** A stored container is its own entry followed by its children's. */
  lemma ContainerHolds(h: Heap, item: Item, path: Path, depth: nat, base: nat, table: seq<Entry>)
    requires base < MAX_VALUES && depth <= MAX_DEPTH && IsContainer(item)
    requires Holds(table, base, EncodeItem(h, item, path, depth, base).entries)
    ensures var kids := EncodeKids(h, Children(item), path, depth + 1, base + 1);
            && Holds(table, base + 1, kids.entries)
            && EncodeItem(h, item, path, depth, base).issues == kids.issues
            && base < |table| && Decode(table, base) == Node(!item.DictItem?, DecodeLinks(table, base, kids.links))
  {
    var e := EncodeItem(h, item, path, depth, base);
    HoldsHead(table, base, e.entries);
    HoldsParts(table, base, [e.entries[0]], EncodeKids(h, Children(item), path, depth + 1, base + 1).entries);
  }

  lemma {:induction false} KidsFaithful(
    h: Heap, cs: seq<Child>, path: Path, depth: nat, base: nat, table: seq<Entry>, parent: nat)
    requires parent < base && parent < |table|
    requires Holds(table, base, EncodeKids(h, cs, path, depth, base).entries)
    ensures FaithfulKids(h, cs, DecodeLinks(table, parent, EncodeKids(h, cs, path, depth, base).links))
    decreases Levels(depth), 1, |cs|
  {
    if cs != [] {
      var n := |cs| - 1;
      if cs[n].SkippedKey? {
        KidsFaithful(h, cs[..n], path, depth, base, table, parent);
      } else {
        var id := LastKid(h, cs, path, depth, base, table, parent);
        KidsFaithful(h, cs[..n], path, depth, base, table, parent);
        EncodingFaithful(h, Get(h, cs[n].ref), Under(path, cs[n].at), depth, id, table);
      }
    }
  }

  /** The children's entries and readings are those of all but the last child, then the last child's. */
  lemma LastKid(
    h: Heap, cs: seq<Child>, path: Path, depth: nat, base: nat, table: seq<Entry>, parent: nat)
    returns (id: nat)
    requires parent < base && parent < |table|
    requires Holds(table, base, EncodeKids(h, cs, path, depth, base).entries)
    requires cs != [] && cs[|cs| - 1].Child?
    ensures var n := |cs| - 1;
            var all, done := EncodeKids(h, cs, path, depth, base), EncodeKids(h, cs[..n], path, depth, base);
            var e := EncodeItem(h, Get(h, cs[n].ref), Under(path, cs[n].at), depth, id);
            && id == base + |done.entries| && id > parent
            && all.issues == done.issues + e.issues
            && Holds(table, base, done.entries) && Holds(table, id, e.entries)
            && DecodeLinks(table, parent, all.links)
               == DecodeLinks(table, parent, done.links) + [Kid(cs[n].at, Decode(table, id))]
  {
    var n := |cs| - 1;
    var done := EncodeKids(h, cs[..n], path, depth, base);
    id := base + |done.entries|;
    assert cs[..n + 1] == cs;
    KidsStep(h, cs, n, path, depth, base);
    HoldsParts(table, base, done.entries, EncodeItem(h, Get(h, cs[n].ref), Under(path, cs[n].at), depth, id).entries);
    LinksStep(table, parent, done.links, Link(cs[n].at, id));
  }

  lemma LinksStep(table: seq<Entry>, i: nat, links: seq<Link>, link: Link)
    requires i < |table| && link.target > i
    ensures DecodeLinks(table, i, links + [link])
         == DecodeLinks(table, i, links) + [Kid(link.at, Decode(table, link.target))]
  {
    assert (links + [link])[..|links|] == links;
  }

  /** Exactly one issue is recorded per key left out. */
  lemma {:induction false} SkippedKeysRecorded(
    h: Heap, item: Item, path: Path, depth: nat, base: nat, table: seq<Entry>)
    requires Holds(table, base, EncodeItem(h, item, path, depth, base).entries)
    ensures Faithful(h, item, Decode(table, base))
    ensures KeyIssues(EncodeItem(h, item, path, depth, base).issues) == Skipped(h, item, Decode(table, base))
    decreases Levels(depth), 1, 0
  {
    EncodingFaithful(h, item, path, depth, base, table);
    if base >= MAX_VALUES || depth > MAX_DEPTH {
      OverBudgetDecodes(h, item, path, depth, base, table);
      KeyIssuesOne([Issue(path, UnsupportedValueType)]);
    } else if IsContainer(item) {
      SkippedInContainerRecorded(h, item, path, depth, base, table);
    } else {
      LeafDecodes(item, path, base, table);
      KeyIssuesOne([Issue(path, SourceValueUnreadable)]);
    }
  }

  lemma {:induction false} SkippedInContainerRecorded(
    h: Heap, item: Item, path: Path, depth: nat, base: nat, table: seq<Entry>)
    requires base < MAX_VALUES && depth <= MAX_DEPTH && IsContainer(item)
    requires Holds(table, base, EncodeItem(h, item, path, depth, base).entries)
    requires Faithful(h, item, Decode(table, base))
    ensures KeyIssues(EncodeItem(h, item, path, depth, base).issues) == Skipped(h, item, Decode(table, base))
    decreases Levels(depth), 0
  {
    ContainerHolds(h, item, path, depth, base, table);
    SkippedKidsRecorded(h, Children(item), path, depth + 1, base + 1, table, base);
  }

  lemma {:induction false} SkippedKidsRecorded(
    h: Heap, cs: seq<Child>, path: Path, depth: nat, base: nat, table: seq<Entry>, parent: nat)
    requires parent < base && parent < |table|
    requires Holds(table, base, EncodeKids(h, cs, path, depth, base).entries)
    ensures var kids := EncodeKids(h, cs, path, depth, base);
            && FaithfulKids(h, cs, DecodeLinks(table, parent, kids.links))
            && KeyIssues(kids.issues) == SkippedKids(h, cs, DecodeLinks(table, parent, kids.links))
    decreases Levels(depth), 2, |cs|
  {
    KidsFaithful(h, cs, path, depth, base, table, parent);
    if cs != [] {
      var n := |cs| - 1;
      var done := EncodeKids(h, cs[..n], path, depth, base);
      if cs[n].SkippedKey? {
        SkippedKidsRecorded(h, cs[..n], path, depth, base, table, parent);
        var one := [Issue(path, UnsupportedSymbolKey)];
        KeyIssuesConcat(done.issues, one);
        KeyIssuesOne(one);
      } else {
        var id := LastKid(h, cs, path, depth, base, table, parent);
        SkippedKidsRecorded(h, cs[..n], path, depth, base, table, parent);
        SkippedKeysRecorded(h, Get(h, cs[n].ref), Under(path, cs[n].at), depth, id, table);
        KeyIssuesConcat(done.issues, EncodeItem(h, Get(h, cs[n].ref), Under(path, cs[n].at), depth, id).issues);
        SkippedWithLast(h, cs, DecodeLinks(table, parent, done.links), Kid(cs[n].at, Decode(table, id)));
      }
    }
  }

  lemma SkippedWithLast(h: Heap, cs: seq<Child>, kids: seq<Kid>, last: Kid)
    requires cs != [] && cs[|cs| - 1].Child? && last.Kid? && last.at == cs[|cs| - 1].at
    requires FaithfulKids(h, cs[..|cs| - 1], kids) && Faithful(h, Get(h, cs[|cs| - 1].ref), last.tree)
    ensures FaithfulKids(h, cs, kids + [last])
    ensures SkippedKids(h, cs, kids + [last])
         == SkippedKids(h, cs[..|cs| - 1], kids) + Skipped(h, Get(h, cs[|cs| - 1].ref), last.tree)
  {
    assert (kids + [last])[..|kids + [last]| - 1] == kids;
  }
}
