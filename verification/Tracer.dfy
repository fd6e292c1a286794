/**
 The pytest entry's call tracer: counters per function, fed by the interpreter's
 trace events of any number of nested, recursive and interleaved frames.
 */
module Tracer {
  import opened Common
  import opened PyAst

  type Frame = nat

  datatype Code = Code(id: nat, filename: string, name: string, firstlineno: nat, isFunction: bool)

  datatype Key = Key(name: string, firstlineno: nat)

  function KeyOf(c: Code): Key { Key(c.name, c.firstlineno) }

  datatype Event =
    | Called(f: Frame, code: Code)
    | Lined(f: Frame)
    | Excepted(f: Frame)
    | Returned(f: Frame, arg: Const)
    | Falsified(id: nat)  // the falsified module has run: its function's code becomes the mutated code

  /** The falsifier as the traced call finds it: the module may have been imported before, or not yet. */
  datatype Fault = Fault(mutatedCode: Option<nat>, replacement: Const)

  /** `resolve` is `os.path.realpath`. */
  datatype Config = Config(resolve: string -> string, absolute: string, fault: Option<Fault>)

  datatype Record = Record(entries: nat, exits: nat, mutatedReturns: nat, mutatedCode: bool)

  datatype Local = Local(key: Key, raised: bool, mutated: bool)

  predicate Matches(cfg: Config, c: Code) {
    c.isFunction && cfg.resolve(c.filename) == cfg.absolute
  }

  function InitiallyMutated(cfg: Config): Option<nat> {
    if cfg.fault.Some? then cfg.fault.value.mutatedCode else None
  }

  predicate IsMutated(mutatedCode: Option<nat>, c: Code) {
    mutatedCode == Some(c.id)
  }

  predicate IsReplacement(cfg: Config, arg: Const) {
    cfg.fault.Some? && arg == cfg.fault.value.replacement
  }

  // ------------------------------------------------------------------
  // The tracer

  class SelectedCallTracer {
    const cfg: Config
    var records: map<Key, Record>
    var filenames: map<string, bool>
    var locals: map<Frame, Local>  // the local trace functions that are installed
    var mutatedCode: Option<nat>   // the falsifier's field, which its loader sets

    constructor (cfg: Config)
      ensures this.cfg == cfg && Now() == Start(cfg) && CacheOk()
    {
      this.cfg := cfg;
      records, filenames, locals := map[], map[], map[];
      mutatedCode := InitiallyMutated(cfg);
    }

    ghost function Now(): State
      reads this
    {
      State(records, locals, mutatedCode)
    }

    ghost predicate CacheOk()
      reads this
    {
      forall name :: name in filenames ==> filenames[name] == (cfg.resolve(name) == cfg.absolute)
    }

    method FileMatches(code: Code) returns (r: bool)
      requires CacheOk()
      modifies this`filenames
      ensures CacheOk() && r == (cfg.resolve(code.filename) == cfg.absolute)
    {
      if code.filename in filenames {
        return filenames[code.filename];
      }
      r := cfg.resolve(code.filename) == cfg.absolute;
      filenames := filenames[code.filename := r];
    }

    /** The global trace function: a call event of a new frame. */
    method Trace(f: Frame, code: Code)
      requires CacheOk()
      modifies this
      ensures CacheOk() && Now() == Step(cfg, old(Now()), Called(f, code))
    {
      if !code.isFunction {
        locals := locals - {f};
        return;
      }
      var same := FileMatches(code);
      if !same {
        locals := locals - {f};
        return;
      }
      var key := KeyOf(code);
      if key !in records {
        records := records[key := Record(0, 0, 0, IsMutated(mutatedCode, code))];
      }
      var record := records[key];
      records := records[key := record.(entries := record.entries + 1)];
      locals := locals[f := Local(key, false, record.mutatedCode)];
    }

    /** `FaultLoader.exec_module`, once the module has run. */
    method SetMutated(id: nat)
      modifies this`mutatedCode
      ensures Now() == Step(cfg, old(Now()), Falsified(id))
    {
      if cfg.fault.Some? {
        mutatedCode := Some(id);
      }
    }

    /** A frame's local trace function; frames without one report nothing. */
    method TraceLocal(e: Event)
      requires !e.Called? && !e.Falsified?
      requires e.f in locals ==> locals[e.f].key in records
      modifies this`records, this`locals
      ensures Now() == Step(cfg, old(Now()), e)
    {
      if e.f !in locals {
        return;
      }
      var local := locals[e.f];
      match e {
        case Excepted(f) => locals := locals[f := local.(raised := true)];
        case Lined(f) => locals := locals[f := local.(raised := false)];
        case Returned(f, arg) =>
          if !local.raised {
            var record := records[local.key];
            record := record.(exits := record.exits + 1);
            if local.mutated && IsReplacement(cfg, arg) {
              record := record.(mutatedReturns := record.mutatedReturns + 1);
            }
            records := records[local.key := record];
          }
          locals := locals - {f};
        case _ =>
      }
    }
  }

  // ------------------------------------------------------------------
  // The same steps as a function, for whole event streams

  datatype State = State(records: map<Key, Record>, locals: map<Frame, Local>, mutatedCode: Option<nat>)

  function Start(cfg: Config): State {
    State(map[], map[], InitiallyMutated(cfg))
  }

  function RecordOf(st: State, c: Code): Record {
    if KeyOf(c) in st.records then st.records[KeyOf(c)] else Record(0, 0, 0, IsMutated(st.mutatedCode, c))
  }

  function Counted(cfg: Config, r: Record, mutated: bool, arg: Const): Record {
    r.(exits := r.exits + 1,
       mutatedReturns := r.mutatedReturns + (if mutated && IsReplacement(cfg, arg) then 1 else 0))
  }

  function Step(cfg: Config, st: State, e: Event): State {
    match e
    case Called(f, c) =>
      if !Matches(cfg, c) then st.(locals := st.locals - {f}) else
      var r := RecordOf(st, c);
      st.(records := st.records[KeyOf(c) := r.(entries := r.entries + 1)],
          locals := st.locals[f := Local(KeyOf(c), false, r.mutatedCode)])
    case Excepted(f) =>
      if f in st.locals then st.(locals := st.locals[f := st.locals[f].(raised := true)]) else st
    case Lined(f) =>
      if f in st.locals then st.(locals := st.locals[f := st.locals[f].(raised := false)]) else st
    case Returned(f, arg) =>
      if f !in st.locals then st else
      var l := st.locals[f];
      var records := if !l.raised && l.key in st.records
                     then st.records[l.key := Counted(cfg, st.records[l.key], l.mutated, arg)] else st.records;
      st.(records := records, locals := st.locals - {f})
    case Falsified(id) => if cfg.fault.Some? then st.(mutatedCode := Some(id)) else st
  }

  function Run(cfg: Config, h: seq<Event>): State {
    if h == [] then Start(cfg) else Step(cfg, Run(cfg, h[..|h| - 1]), h[|h| - 1])
  }

  // ------------------------------------------------------------------
  // What the event stream itself says

  /** The frames that are running, and their code. */
  function Open(h: seq<Event>): map<Frame, Code> {
    if h == [] then map[] else
    var before, e := Open(h[..|h| - 1]), h[|h| - 1];
    match e
    case Called(f, c) => before[f := c]
    case Returned(f, _) => before - {f}
    case _ => before
  }

  /**
   The interpreter's order: a frame is called when it is not running, and
   everything else happens to a running frame.
   */
  predicate WellFormed(h: seq<Event>) {
    h == [] ||
    (var before, e := h[..|h| - 1], h[|h| - 1];
     WellFormed(before) && (e.Falsified? || (e.Called? <==> e.f !in Open(before))))
  }

  /** The frame's latest line or exception event, since its call, was an exception. */
  predicate Raised(h: seq<Event>, f: Frame) {
    if h == [] then false else
    var e := h[|h| - 1];
    if !e.Falsified? && e.f == f then e.Excepted? else Raised(h[..|h| - 1], f)
  }

  /** Code of the function of this name and line in the declared module; module and class bodies are none. */
  predicate Runs(cfg: Config, c: Code, k: Key) {
    c.isFunction && cfg.resolve(c.filename) == cfg.absolute && c.name == k.name && c.firstlineno == k.firstlineno
  }

  /** The last event leaves a frame of the traced function k. */
  predicate Leaves(cfg: Config, h: seq<Event>, k: Key) {
    && |h| > 0 && h[|h| - 1].Returned?
    && var before, f := Open(h[..|h| - 1]), h[|h| - 1].f;
       f in before && Runs(cfg, before[f], k)
  }

  function Entries(cfg: Config, h: seq<Event>, k: Key): nat {
    if h == [] then 0 else
    var e := h[|h| - 1];
    Entries(cfg, h[..|h| - 1], k) + (if Enters(cfg, e, k) then 1 else 0)
  }

  /** Returns that are not preceded by an exception the frame did not handle. */
  function Returns(cfg: Config, h: seq<Event>, k: Key): nat {
    if h == [] then 0 else
    Returns(cfg, h[..|h| - 1], k)
    + (if Leaves(cfg, h, k) && !Raised(h[..|h| - 1], h[|h| - 1].f) then 1 else 0)
  }

  function Suppressed(cfg: Config, h: seq<Event>, k: Key): nat {
    if h == [] then 0 else
    Suppressed(cfg, h[..|h| - 1], k)
    + (if Leaves(cfg, h, k) && Raised(h[..|h| - 1], h[|h| - 1].f) then 1 else 0)
  }

  /** The mutated code as of the latest import of the falsified module. */
  function MutatedBy(cfg: Config, h: seq<Event>): Option<nat> {
    if h == [] then InitiallyMutated(cfg)
    else if cfg.fault.Some? && h[|h| - 1].Falsified? then Some(h[|h| - 1].id)
    else MutatedBy(cfg, h[..|h| - 1])
  }

  /** Whether the first call of k ran what was then the mutated code. */
  predicate FirstMutated(cfg: Config, h: seq<Event>, k: Key) {
    if h == [] then false
    else if Entries(cfg, h[..|h| - 1], k) > 0 then FirstMutated(cfg, h[..|h| - 1], k)
    else
      var e := h[|h| - 1];
      Enters(cfg, e, k) && MutatedBy(cfg, h[..|h| - 1]) == Some(e.code.id)
  }

  function MutatedReturns(cfg: Config, h: seq<Event>, k: Key): nat {
    if h == [] then 0 else
    MutatedReturns(cfg, h[..|h| - 1], k)
    + (if Leaves(cfg, h, k) && !Raised(h[..|h| - 1], h[|h| - 1].f)
          && FirstMutated(cfg, h[..|h| - 1], k)
          && cfg.fault.Some? && h[|h| - 1].arg == cfg.fault.value.replacement then 1 else 0)
  }

  ghost function FramesIn(cfg: Config, open: map<Frame, Code>, k: Key): set<Frame> {
    set f | f in open && Runs(cfg, open[f], k)
  }

  ghost function OpenFrames(cfg: Config, h: seq<Event>, k: Key): set<Frame> {
    FramesIn(cfg, Open(h), k)
  }

  // ------------------------------------------------------------------
  // The counters are those numbers

  /** A frame has a local trace function exactly while it runs traced code, in the state its events left it. */
  ghost predicate LocalOk(cfg: Config, h: seq<Event>, st: State, f: Frame) {
    && (f in st.locals <==> f in Open(h) && Matches(cfg, Open(h)[f]))
    && (f in st.locals ==>
          && st.locals[f].key == KeyOf(Open(h)[f])
          && st.locals[f].raised == Raised(h, f)
          && st.locals[f].key in st.records
          && st.locals[f].mutated == st.records[st.locals[f].key].mutatedCode)
  }

  ghost predicate RecordOk(cfg: Config, h: seq<Event>, st: State, k: Key) {
    && (k in st.records <==> Entries(cfg, h, k) > 0)
    && (k in st.records ==>
          st.records[k]
          == Record(Entries(cfg, h, k), Returns(cfg, h, k), MutatedReturns(cfg, h, k), FirstMutated(cfg, h, k)))
    && (k !in st.records ==> Returns(cfg, h, k) == 0 && MutatedReturns(cfg, h, k) == 0)
  }

  ghost predicate Agrees(cfg: Config, h: seq<Event>, st: State) {
    && (forall f: Frame :: LocalOk(cfg, h, st, f))
    && (forall k :: RecordOk(cfg, h, st, k))
    && st.mutatedCode == MutatedBy(cfg, h)
  }

  lemma LocalStep(cfg: Config, h: seq<Event>, f: Frame)
    requires h != [] && WellFormed(h) && Agrees(cfg, h[..|h| - 1], Run(cfg, h[..|h| - 1]))
    ensures LocalOk(cfg, h, Run(cfg, h), f)
  {
    var before, e := h[..|h| - 1], h[|h| - 1];
    assert LocalOk(cfg, before, Run(cfg, before), f);
    if e.Called? && Matches(cfg, e.code) { assert RecordOk(cfg, before, Run(cfg, before), KeyOf(e.code)); }
  }

  lemma RecordStep(cfg: Config, h: seq<Event>, k: Key)
    requires h != [] && WellFormed(h) && Agrees(cfg, h[..|h| - 1], Run(cfg, h[..|h| - 1]))
    ensures RecordOk(cfg, h, Run(cfg, h), k)
  {
    var before, e := h[..|h| - 1], h[|h| - 1];
    assert RecordOk(cfg, before, Run(cfg, before), k);
    if !e.Falsified? { assert LocalOk(cfg, before, Run(cfg, before), e.f); }
  }

  lemma {:induction false} CountersAgree(cfg: Config, h: seq<Event>)
    requires WellFormed(h)
    ensures Agrees(cfg, h, Run(cfg, h))
  {
    if h != [] {
      CountersAgree(cfg, h[..|h| - 1]);
      forall f: Frame ensures LocalOk(cfg, h, Run(cfg, h), f) { LocalStep(cfg, h, f); }
      forall k ensures RecordOk(cfg, h, Run(cfg, h), k) { RecordStep(cfg, h, k); }
    }
  }

  // ------------------------------------------------------------------
  // Conservation

  /** Every entry has returned, was left by an exception, or is still running. */
  lemma {:induction false} EntriesConserved(cfg: Config, h: seq<Event>, k: Key)
    requires WellFormed(h)
    ensures Entries(cfg, h, k) == Returns(cfg, h, k) + Suppressed(cfg, h, k) + |OpenFrames(cfg, h, k)|
  {
    if h == [] {
      assert OpenFrames(cfg, h, k) == {};
    } else {
      EntriesConserved(cfg, h[..|h| - 1], k);
      OpenFramesStep(cfg, h, k);
    }
  }

  predicate Enters(cfg: Config, e: Event, k: Key) {
    e.Called? && Runs(cfg, e.code, k)
  }

  lemma FrameAdded(cfg: Config, open: map<Frame, Code>, f: Frame, c: Code, k: Key)
    requires f !in open
    ensures var was, now := FramesIn(cfg, open, k), FramesIn(cfg, open[f := c], k);
            |now| == |was| + if Runs(cfg, c, k) then 1 else 0
  {
    var was, now := FramesIn(cfg, open, k), FramesIn(cfg, open[f := c], k);
    if Runs(cfg, c, k) { assert now == was + {f}; } else { assert now == was; }
  }

  lemma FrameRemoved(cfg: Config, open: map<Frame, Code>, f: Frame, k: Key)
    requires f in open
    ensures var was, now := FramesIn(cfg, open, k), FramesIn(cfg, open - {f}, k);
            |now| == |was| - if Runs(cfg, open[f], k) then 1 else 0
  {
    var was, now := FramesIn(cfg, open, k), FramesIn(cfg, open - {f}, k);
    if Runs(cfg, open[f], k) { assert now == was - {f} && f in was; } else { assert now == was; }
  }

  lemma OpenFramesStep(cfg: Config, h: seq<Event>, k: Key)
    requires h != [] && WellFormed(h)
    ensures |OpenFrames(cfg, h, k)| == |OpenFrames(cfg, h[..|h| - 1], k)|
              + (if Enters(cfg, h[|h| - 1], k) then 1 else 0) - (if Leaves(cfg, h, k) then 1 else 0)
  {
    var e := h[|h| - 1];
    if e.Called? {
      FrameAdded(cfg, Open(h[..|h| - 1]), e.f, e.code, k);
    } else if e.Returned? {
      FrameRemoved(cfg, Open(h[..|h| - 1]), e.f, k);
    }
  }

  lemma {:induction false} MutatedAmongReturns(cfg: Config, h: seq<Event>, k: Key)
    ensures MutatedReturns(cfg, h, k) <= Returns(cfg, h, k)
  {
    if h != [] { MutatedAmongReturns(cfg, h[..|h| - 1], k); }
  }

  /**
   Over every well-formed stream: a record's entries are its counted returns,
   the returns suppressed by an unhandled exception and the frames still
   running, and mutated returns <= returns <= entries.
   */
  lemma TraceConserved(cfg: Config, h: seq<Event>, k: Key)
    requires WellFormed(h) && k in Run(cfg, h).records
    ensures var r := Run(cfg, h).records[k];
            && r.entries == r.exits + Suppressed(cfg, h, k) + |OpenFrames(cfg, h, k)|
            && r.mutatedReturns <= r.exits <= r.entries
  {
    CountersAgree(cfg, h);
    assert RecordOk(cfg, h, Run(cfg, h), k);
    EntriesConserved(cfg, h, k);
    MutatedAmongReturns(cfg, h, k);
  }

  // ------------------------------------------------------------------
  // The falsifier's projection

  /** Sums over the records of mutated code, as `projection` reports them. */
  function MutatedEntriesInCall(calls: seq<Record>): nat {
    if calls == [] then 0 else
    var n := |calls| - 1;
    MutatedEntriesInCall(calls[..n]) + (if calls[n].mutatedCode then calls[n].entries else 0)
  }

  function MutatedReturnsInCall(calls: seq<Record>): nat {
    if calls == [] then 0 else
    var n := |calls| - 1;
    MutatedReturnsInCall(calls[..n]) + (if calls[n].mutatedCode then calls[n].mutatedReturns else 0)
  }

  /** The same sums, read off the event stream. */
  function StreamEntries(cfg: Config, h: seq<Event>, keys: seq<Key>): nat {
    if keys == [] then 0 else
    var n := |keys| - 1;
    StreamEntries(cfg, h, keys[..n]) + (if FirstMutated(cfg, h, keys[n]) then Entries(cfg, h, keys[n]) else 0)
  }

  function StreamReturns(cfg: Config, h: seq<Event>, keys: seq<Key>): nat {
    if keys == [] then 0 else
    var n := |keys| - 1;
    StreamReturns(cfg, h, keys[..n]) + (if FirstMutated(cfg, h, keys[n]) then MutatedReturns(cfg, h, keys[n]) else 0)
  }

  /** What the projection sums up is what happened: entries and mutated returns of the functions first run mutated. */
  lemma {:induction false} ProjectionCounts(cfg: Config, h: seq<Event>, keys: seq<Key>, calls: seq<Record>)
    requires WellFormed(h) && |keys| == |calls|
    requires forall i :: 0 <= i < |keys| ==> keys[i] in Run(cfg, h).records && calls[i] == Run(cfg, h).records[keys[i]]
    ensures MutatedEntriesInCall(calls) == StreamEntries(cfg, h, keys)
    ensures MutatedReturnsInCall(calls) == StreamReturns(cfg, h, keys)
  {
    if calls != [] {
      var n := |calls| - 1;
      ProjectionCounts(cfg, h, keys[..n], calls[..n]);
      CountersAgree(cfg, h);
      assert RecordOk(cfg, h, Run(cfg, h), keys[n]);
    }
  }

  /** Projected mutated returns never exceed mutated entries, whichever records are reported and in whichever order. */
  lemma {:induction false} ProjectionConserved(cfg: Config, h: seq<Event>, keys: seq<Key>, calls: seq<Record>)
    requires WellFormed(h) && |keys| == |calls|
    requires forall i :: 0 <= i < |keys| ==> keys[i] in Run(cfg, h).records && calls[i] == Run(cfg, h).records[keys[i]]
    ensures MutatedReturnsInCall(calls) <= MutatedEntriesInCall(calls)
  {
    if calls != [] {
      var n := |calls| - 1;
      TraceConserved(cfg, h, keys[n]);
      ProjectionConserved(cfg, h, keys[..n], calls[..n]);
    }
  }
}
