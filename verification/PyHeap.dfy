/** The Python objects a diagnosis reads: values and exceptions, by identity. Both graphs may be cyclic. */
module PyHeap {
  import opened Common

  type Ref = nat

  datatype Float = Finite(r: real) | NaN | PosInf | NegInf

  datatype Scalar =
    | NoneScalar
    | BoolScalar(b: bool)
    | IntScalar(i: int)
    | FloatScalar(f: Float)
    | StrScalar(s: string)

  datatype Key = StrKey(s: string) | OtherKey

  datatype Item =
    | ScalarItem(scalar: Scalar)
    | ListItem(elements: seq<Ref>)
    | TupleItem(elements: seq<Ref>)
    | DictItem(entries: seq<(Key, Ref)>)
    | OtherItem(typeName: string, readable: bool)  // readable: `str(item)` does not raise

  type Heap = map<Ref, Item>

  function Get(h: Heap, r: Ref): (item: Item)
    ensures r in h ==> item == h[r]
  {
    if r in h then h[r] else ScalarItem(NoneScalar)
  }

  datatype PyType =
    | NoneType | BoolType | IntType | FloatType | StrType | ListType | TupleType | DictType
    | Named(name: string)

  /** `type(item).__name__` */
  function TypeName(item: Item): PyType {
    match item
    case ScalarItem(NoneScalar) => NoneType
    case ScalarItem(BoolScalar(_)) => BoolType
    case ScalarItem(IntScalar(_)) => IntType
    case ScalarItem(FloatScalar(_)) => FloatType
    case ScalarItem(StrScalar(_)) => StrType
    case ListItem(_) => ListType
    case TupleItem(_) => TupleType
    case DictItem(_) => DictType
    case OtherItem(name, _) => Named(name)
  }

  datatype Label = Index(i: nat) | Name(key: string)

  /** What iterating over a container yields; dictionary keys that are not strings are skipped. */
  datatype Child = Child(at: Label, ref: Ref) | SkippedKey

  predicate IsContainer(item: Item) {
    item.ListItem? || item.TupleItem? || item.DictItem?
  }

  function Children(item: Item): (cs: seq<Child>)
    requires IsContainer(item)
    ensures |cs| == Width(item)
  {
    if item.DictItem? then
      seq(|item.entries|, i requires 0 <= i < |item.entries| =>
        if item.entries[i].0.StrKey? then Child(Name(item.entries[i].0.s), item.entries[i].1) else SkippedKey)
    else
      seq(|item.elements|, i requires 0 <= i < |item.elements| => Child(Index(i), item.elements[i]))
  }

  function Width(item: Item): nat {
    if item.DictItem? then |item.entries|
    else if IsContainer(item) then |item.elements|
    else 0
  }

  // ------------------------------------------------------------------
  // Exceptions

  datatype Exc = Exc(
    name: string,                  // type(exc).__qualname__
    message: Option<string>,       // None: str(exc) raises
    stack: Option<string>,         // None: formatting raises
    location: Option<string>,
    code: Option<string>,          // a `code` attribute that is a string
    isAssertion: bool,
    args: seq<Ref>,
    cause: Option<Ref>,
    context: Option<Ref>,
    suppressContext: bool,
    isGroup: bool,
    nested: Option<seq<Ref>>)      // an `exceptions` attribute that is a tuple

  type Excs = map<Ref, Exc>

  /** The exception this one was raised from: its cause, or else a context that is not suppressed. */
  predicate RaisedFrom(x: Exc, s: Ref) {
    x.cause == Some(s) || (x.cause.None? && !x.suppressContext && x.context == Some(s))
  }

  /** Neither a cause nor a context that counts. */
  predicate RaisedAlone(x: Exc) {
    x.cause.None? && (x.suppressContext || x.context.None?)
  }

  predicate HasMember(x: Exc, s: Ref) {
    x.isGroup && x.nested.Some? && s in x.nested.value
  }

  /** The edges of the exception graph. */
  predicate LeadsTo(x: Exc, s: Ref) {
    RaisedFrom(x, s) || HasMember(x, s)
  }

  /** `__cause__`, or `__context__` unless suppressed. */
  function CauseOf(x: Exc): (c: Option<Ref>)
    ensures if c.Some? then RaisedFrom(x, c.value) else RaisedAlone(x)
  {
    if x.cause.None? && !x.suppressContext then x.context else x.cause
  }

  function MembersOf(x: Exc): (ms: Option<seq<Ref>>)
    ensures ms.Some? <==> x.isGroup && x.nested.Some?
    ensures ms.Some? ==> ms == x.nested
  {
    if x.isGroup then x.nested else None
  }

  /** The exceptions an exception leads to, in the order they are encoded. */
  function Successors(x: Exc): seq<Ref> {
    (if CauseOf(x).Some? then [CauseOf(x).value] else [])
    + (if MembersOf(x).Some? then MembersOf(x).value else [])
  }

  lemma SuccessorsAreEdges(x: Exc, s: Ref)
    ensures s in Successors(x) <==> LeadsTo(x, s)
  {
  }

  /** Every referenced exception exists. */
  predicate Closed(xs: Excs) {
    forall e, s :: e in xs && s in Successors(xs[e]) ==> s in xs
  }
}
