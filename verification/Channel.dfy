/**
 The observer's event channel: one record per line, written under a lock by any
 number of threads, in writes that may be short and may fail.
 */
module Channel {
  import opened Common
  import opened Json
  import opened JsonRoundTrip

  const NL := '\n'

  datatype Config = Config(nonce: string, source: string)

  /** What a caller emits. */
  datatype Payload = Payload(kind: string, fields: seq<(string, Json)>)

  function Number(n: nat): Json {
    var text := DecimalNat(n);
    assert IsNumberText(text);
    JNumber(text)
  }

  type Fields = seq<(string, Json)>

  /** `record[name] = value`: a name keeps its place when it is set again. */
  function Put(record: Fields, name: string, value: Json): Fields {
    if record == [] then [(name, value)]
    else if record[0].0 == name then [(name, value)] + record[1..]
    else [record[0]] + Put(record[1..], name, value)
  }

  /** `record.update(fields)` */
  function Update(record: Fields, fields: Fields): Fields {
    if fields == [] then record else
    var n := |fields| - 1;
    Put(Update(record, fields[..n]), fields[n].0, fields[n].1)
  }

  function Get(record: Fields, name: string): Option<Json> {
    if record == [] then None else if record[0].0 == name then Some(record[0].1) else Get(record[1..], name)
  }

  function Base(cfg: Config, seqNo: nat, kind: string): Fields {
    [("v", Number(1)), ("nonce", JString(cfg.nonce)), ("src", JString(cfg.source)),
     ("seq", Number(seqNo)), ("kind", JString(kind))]
  }

  function Record(cfg: Config, seqNo: nat, p: Payload): Json {
    JObject(Update(Base(cfg, seqNo, p.kind), p.fields))
  }

  // ------------------------------------------------------------------
  // What a record holds

  /** The value of the last field of a name. */
  function Last(fields: Fields, name: string): Option<Json> {
    if fields == [] then None else
    var n := |fields| - 1;
    if fields[n].0 == name then Some(fields[n].1) else Last(fields[..n], name)
  }

  /** What a reader finds under a name: what the caller passed, or what every record has. */
  ghost predicate HoldsUnder(cfg: Config, seqNo: nat, p: Payload, name: string, found: Option<Json>) {
    if Last(p.fields, name).Some? then found == Last(p.fields, name)
    else if name == "v" then found.Some? && IsNumber(found.value, 1)
    else if name == "nonce" then found == Some(JString(cfg.nonce))
    else if name == "src" then found == Some(JString(cfg.source))
    else if name == "seq" then found.Some? && IsNumber(found.value, seqNo)
    else if name == "kind" then found == Some(JString(p.kind))
    else found.None?
  }

  predicate IsNumber(j: Json, n: nat) {
    j.JNumber? && ParseNat(j.text) == n
  }

  lemma {:induction false} GetPut(record: Fields, name: string, value: Json, other: string)
    ensures Get(Put(record, name, value), other) == if other == name then Some(value) else Get(record, other)
  {
    if record != [] && record[0].0 != name {
      GetPut(record[1..], name, value, other);
      assert Put(record, name, value)[1..] == Put(record[1..], name, value);
    } else {
      assert Put(record, name, value)[1..] == if record == [] then [] else record[1..];
    }
  }

  lemma {:induction false} GetUpdate(record: Fields, fields: Fields, name: string)
    ensures Get(Update(record, fields), name)
         == if Last(fields, name).Some? then Last(fields, name) else Get(record, name)
  {
    if fields != [] {
      var n := |fields| - 1;
      GetUpdate(record, fields[..n], name);
      GetPut(Update(record, fields[..n]), fields[n].0, fields[n].1, name);
    }
  }

  lemma NumberIs(n: nat)
    ensures IsNumber(Number(n), n)
  {
    ParseNatDecimalNat(n);
  }

  lemma BaseHolds(cfg: Config, seqNo: nat, kind: string, name: string)
    ensures HoldsUnder(cfg, seqNo, Payload(kind, []), name, Get(Base(cfg, seqNo, kind), name))
  {
    var base := Base(cfg, seqNo, kind);
    NumberIs(1);
    NumberIs(seqNo);
    BaseNames();
    GetAt(base, name, 0);
    GetAt(base, name, 1);
    GetAt(base, name, 2);
    GetAt(base, name, 3);
    GetAt(base, name, 4);
    assert base[5..] == [];
  }

  /** Looking a name up one field further. */
  lemma GetAt(record: Fields, name: string, i: nat)
    requires i < |record|
    ensures Get(record[i..], name) == if record[i].0 == name then Some(record[i].1) else Get(record[i + 1..], name)
    ensures record[0..] == record
  {
    assert record[i..][1..] == record[i + 1..];
  }

  lemma BaseNames()
    ensures "v" != "nonce" && "v" != "src" && "v" != "seq" && "v" != "kind"
    ensures "nonce" != "src" && "nonce" != "seq" && "nonce" != "kind"
    ensures "src" != "seq" && "src" != "kind" && "seq" != "kind"
  {
    assert |"v"| == 1 && |"nonce"| == 5 && |"src"| == 3 && |"seq"| == 3 && |"kind"| == 4;
    assert "src"[1] != "seq"[1];
  }

  /**
   Whatever name a reader looks up, a record holds the caller's last value of
   that name, or else version, nonce, source, number or kind, or else nothing.
   */
  lemma RecordHolds(cfg: Config, seqNo: nat, p: Payload, name: string)
    ensures HoldsUnder(cfg, seqNo, p, name, Get(Record(cfg, seqNo, p).fields, name))
  {
    GetUpdate(Base(cfg, seqNo, p.kind), p.fields, name);
    BaseHolds(cfg, seqNo, p.kind, name);
  }

  lemma {:induction false} PutKeepsPlaces(record: Fields, name: string, value: Json)
    ensures |record| <= |Put(record, name, value)| <= |record| + 1
    ensures forall i :: 0 <= i < |record| ==> Put(record, name, value)[i].0 == record[i].0
  {
    if record != [] && record[0].0 != name { PutKeepsPlaces(record[1..], name, value); }
  }

  /** Names that are set again keep their places: the five base names come first, in order. */
  lemma {:induction false} UpdateKeepsPlaces(record: Fields, fields: Fields)
    ensures |record| <= |Update(record, fields)|
    ensures forall i :: 0 <= i < |record| ==> Update(record, fields)[i].0 == record[i].0
  {
    if fields != [] {
      var n := |fields| - 1;
      UpdateKeepsPlaces(record, fields[..n]);
      PutKeepsPlaces(Update(record, fields[..n]), fields[n].0, fields[n].1);
    }
  }

  lemma RecordKeepsPlaces(cfg: Config, seqNo: nat, p: Payload)
    ensures var fields := Record(cfg, seqNo, p).fields;
            && |fields| >= 5
            && fields[0].0 == "v" && fields[1].0 == "nonce" && fields[2].0 == "src"
            && fields[3].0 == "seq" && fields[4].0 == "kind"
  {
    UpdateKeepsPlaces(Base(cfg, seqNo, p.kind), p.fields);
  }

  function Line(cfg: Config, seqNo: nat, p: Payload): string {
    Dump(Record(cfg, seqNo, p)) + [NL]
  }

  // ------------------------------------------------------------------
  // One thread's emit, as it is written

  class Channel {
    const cfg: Config
    var sequence: nat
    var file: string  // what this source has appended

    constructor (cfg: Config)
      ensures this.cfg == cfg && sequence == 0 && file == ""
    {
      this.cfg := cfg;
      sequence, file := 0, "";
    }

    /** With the lock held: writes until nothing is left, however short each write is. */
    method Emit(p: Payload)
      modifies this
      ensures file == old(file) + Line(cfg, old(sequence), p)
      ensures sequence == old(sequence) + 1
    {
      var line := Line(cfg, sequence, p);
      var view := line;
      while view != ""
        invariant |view| <= |line| && view == line[|line| - |view|..]
        invariant file == old(file) + line[..|line| - |view|] && sequence == old(sequence)
        decreases |view|
      {
        var written: nat :| 1 <= written <= |view|;
        var done := |line| - |view|;
        assert line[..done] + view[..written] == line[..done + written];
        file := file + view[..written];
        view := view[written..];
      }
      sequence := sequence + 1;
    }
  }

  // ------------------------------------------------------------------
  // All threads: the steps between two changes of the shared state

  type Tid = nat

  datatype Thread = Idle | Waiting(p: Payload) | Writing(p: Payload, seqNo: nat, written: nat)

  /** An emit that gave up the lock, and how much of its line reached the file. */
  datatype Chunk = Chunk(t: Tid, p: Payload, seqNo: nat, written: nat)

  /** The shared state; `log` is the history of finished emits, in the order they held the lock. */
  datatype State = State(file: string, sequence: nat, holder: Option<Tid>, threads: map<Tid, Thread>, log: seq<Chunk>)

  const INITIAL := State("", 0, None, map[], [])

  datatype Action =
    | Call(t: Tid, p: Payload)   // emit is called
    | Acquire(t: Tid)            // the lock is taken and the line is built
    | Write(t: Tid, n: nat)      // one os.write that accepts n bytes
    | Release(t: Tid)            // everything is written: count it and give the lock back
    | WriteFails(t: Tid)         // os.open or os.write raises: give the lock back

  function ThreadOf(s: State, t: Tid): Thread {
    if t in s.threads then s.threads[t] else Idle
  }

  predicate Enabled(cfg: Config, s: State, a: Action) {
    var th := ThreadOf(s, a.t);
    match a
    case Call(_, _) => th.Idle?
    case Acquire(_) => th.Waiting? && s.holder.None?
    case Write(_, n) => th.Writing? && 1 <= n && th.written + n <= |Line(cfg, th.seqNo, th.p)|
    case Release(_) => th.Writing? && th.written == |Line(cfg, th.seqNo, th.p)|
    case WriteFails(_) => th.Writing? && th.written < |Line(cfg, th.seqNo, th.p)|
  }

  function Apply(cfg: Config, s: State, a: Action): State
    requires Enabled(cfg, s, a)
  {
    var th := ThreadOf(s, a.t);
    match a
    case Call(t, p) => s.(threads := s.threads[t := Waiting(p)])
    case Acquire(t) => s.(holder := Some(t), threads := s.threads[t := Writing(th.p, s.sequence, 0)])
    case Write(t, n) =>
      s.(file := s.file + Line(cfg, th.seqNo, th.p)[th.written..th.written + n],
         threads := s.threads[t := th.(written := th.written + n)])
    case Release(t) =>
      s.(sequence := s.sequence + 1, holder := None, threads := s.threads[t := Idle],
         log := s.log + [Chunk(t, th.p, th.seqNo, th.written)])
    case WriteFails(t) =>
      s.(holder := None, threads := s.threads[t := Idle], log := s.log + [Chunk(t, th.p, th.seqNo, th.written)])
  }

  /** Any interleaving: each action is enabled where it happens. */
  predicate IsRun(cfg: Config, actions: seq<Action>)
    decreases |actions|, 0
  {
    actions == [] ||
    (IsRun(cfg, actions[..|actions| - 1]) && Enabled(cfg, After(cfg, actions[..|actions| - 1]), actions[|actions| - 1]))
  }

  function After(cfg: Config, actions: seq<Action>): State
    requires IsRun(cfg, actions)
    decreases |actions|, 1
  {
    if actions == [] then INITIAL
    else Apply(cfg, After(cfg, actions[..|actions| - 1]), actions[|actions| - 1])
  }

  // ------------------------------------------------------------------
  // The invariant

  function TextOf(cfg: Config, c: Chunk): string {
    Line(cfg, c.seqNo, c.p)
  }

  predicate IsWhole(cfg: Config, c: Chunk) {
    c.written == |TextOf(cfg, c)|
  }

  function WholeCount(cfg: Config, log: seq<Chunk>): nat {
    if log == [] then 0
    else WholeCount(cfg, log[..|log| - 1]) + (if IsWhole(cfg, log[|log| - 1]) then 1 else 0)
  }

  predicate LogOk(cfg: Config, log: seq<Chunk>) {
    log == [] ||
    (var n := |log| - 1;
     && LogOk(cfg, log[..n])
     && log[n].written <= |TextOf(cfg, log[n])|
     && log[n].seqNo == WholeCount(cfg, log[..n]))
  }

  /** What the finished emits have put into the file. */
  function Written(cfg: Config, log: seq<Chunk>): string
    requires LogOk(cfg, log)
  {
    if log == [] then "" else
    var n := |log| - 1;
    Written(cfg, log[..n]) + TextOf(cfg, log[n])[..log[n].written]
  }

  /** The part of the held line that is in the file. */
  function Held(cfg: Config, s: State): string
    requires s.holder.Some? ==>
      var th := ThreadOf(s, s.holder.value); th.Writing? && th.written <= |Line(cfg, th.seqNo, th.p)|
  {
    if s.holder.None? then "" else
    var th := ThreadOf(s, s.holder.value);
    Line(cfg, th.seqNo, th.p)[..th.written]
  }

  ghost predicate HolderOk(cfg: Config, s: State) {
    && (forall t: Tid :: ThreadOf(s, t).Writing? ==> s.holder == Some(t))
    && (s.holder.Some? ==>
          var th := ThreadOf(s, s.holder.value);
          th.Writing? && th.seqNo == s.sequence && th.written <= |Line(cfg, th.seqNo, th.p)|)
  }

  ghost predicate Inv(cfg: Config, s: State) {
    && HolderOk(cfg, s)
    && LogOk(cfg, s.log)
    && s.sequence == WholeCount(cfg, s.log)
    && s.file == Written(cfg, s.log) + Held(cfg, s)
  }

  lemma LogGrows(cfg: Config, log: seq<Chunk>, c: Chunk)
    requires LogOk(cfg, log) && c.seqNo == WholeCount(cfg, log) && c.written <= |TextOf(cfg, c)|
    ensures LogOk(cfg, log + [c])
    ensures Written(cfg, log + [c]) == Written(cfg, log) + TextOf(cfg, c)[..c.written]
    ensures WholeCount(cfg, log + [c]) == WholeCount(cfg, log) + (if IsWhole(cfg, c) then 1 else 0)
  {
    assert (log + [c])[..|log + [c]| - 1] == log;
  }

  lemma CallKeepsInv(cfg: Config, s: State, t: Tid, p: Payload)
    requires Inv(cfg, s) && Enabled(cfg, s, Call(t, p))
    ensures Inv(cfg, Apply(cfg, s, Call(t, p)))
  {
    assert s.holder != Some(t);
    assert Held(cfg, Apply(cfg, s, Call(t, p))) == Held(cfg, s);
  }

  lemma AcquireKeepsInv(cfg: Config, s: State, t: Tid)
    requires Inv(cfg, s) && Enabled(cfg, s, Acquire(t))
    ensures Inv(cfg, Apply(cfg, s, Acquire(t)))
  {
    assert Held(cfg, Apply(cfg, s, Acquire(t))) == "";
  }

  lemma WriteKeepsInv(cfg: Config, s: State, t: Tid, n: nat)
    requires Inv(cfg, s) && Enabled(cfg, s, Write(t, n))
    ensures Inv(cfg, Apply(cfg, s, Write(t, n)))
  {
    var th := ThreadOf(s, t);
    var line := Line(cfg, th.seqNo, th.p);
    assert s.holder == Some(t);
    assert line[..th.written] + line[th.written..th.written + n] == line[..th.written + n];
    ConcatAssoc(Written(cfg, s.log), line[..th.written], line[th.written..th.written + n]);
    assert Held(cfg, Apply(cfg, s, Write(t, n))) == line[..th.written + n];
  }

  lemma FinishKeepsInv(cfg: Config, s: State, a: Action)
    requires Inv(cfg, s) && Enabled(cfg, s, a) && (a.Release? || a.WriteFails?)
    ensures Inv(cfg, Apply(cfg, s, a))
  {
    var th := ThreadOf(s, a.t);
    assert s.holder == Some(a.t);
    LogGrows(cfg, s.log, Chunk(a.t, th.p, th.seqNo, th.written));
    assert s.file + "" == s.file;
  }

  lemma StepKeepsInv(cfg: Config, s: State, a: Action)
    requires Inv(cfg, s) && Enabled(cfg, s, a)
    ensures Inv(cfg, Apply(cfg, s, a))
  {
    match a
    case Call(t, p) => CallKeepsInv(cfg, s, t, p);
    case Acquire(t) => AcquireKeepsInv(cfg, s, t);
    case Write(t, n) => WriteKeepsInv(cfg, s, t, n);
    case _ => FinishKeepsInv(cfg, s, a);
  }

  /** The invariant holds after every run of every number of threads. */
  lemma {:induction false} RunKeepsInv(cfg: Config, actions: seq<Action>)
    requires IsRun(cfg, actions)
    ensures Inv(cfg, After(cfg, actions))
  {
    if actions != [] {
      RunKeepsInv(cfg, actions[..|actions| - 1]);
      StepKeepsInv(cfg, After(cfg, actions[..|actions| - 1]), actions[|actions| - 1]);
    }
  }

  // ------------------------------------------------------------------
  // Nothing emitted is lost, repeated or reordered within its thread

  /** What a thread has called emit with, in order. */
  function CalledBy(actions: seq<Action>, t: Tid): seq<Payload> {
    if actions == [] then [] else
    var last := actions[|actions| - 1];
    CalledBy(actions[..|actions| - 1], t) + Called(last, t)
  }

  /** What the finished emits of a thread carried, in the order they held the lock. */
  function LoggedBy(log: seq<Chunk>, t: Tid): seq<Payload> {
    if log == [] then [] else
    var last := log[|log| - 1];
    LoggedBy(log[..|log| - 1], t) + (if last.t == t then [last.p] else [])
  }

  function PendingOf(th: Thread): seq<Payload> {
    if th.Idle? then [] else [th.p]
  }

  function Called(a: Action, t: Tid): seq<Payload> {
    if a.Call? && a.t == t then [a.p] else []
  }

  lemma LoggedStep(log: seq<Chunk>, c: Chunk, t: Tid)
    ensures LoggedBy(log + [c], t) == LoggedBy(log, t) + (if c.t == t then [c.p] else [])
  {
    assert (log + [c])[..|log + [c]| - 1] == log;
  }

  /** What a thread has logged and has under way. */
  function Account(s: State, t: Tid): seq<Payload> {
    LoggedBy(s.log, t) + PendingOf(ThreadOf(s, t))
  }

  lemma StepAccounts(cfg: Config, s: State, a: Action, t: Tid)
    requires Enabled(cfg, s, a)
    ensures Account(Apply(cfg, s, a), t) == Account(s, t) + Called(a, t)
  {
    if a.Release? || a.WriteFails? { FinishAccounts(cfg, s, a, t); } else { GoesOnAccounts(cfg, s, a, t); }
  }

  /** Calling adds to a thread's account; taking the lock and writing do not change it. */
  lemma GoesOnAccounts(cfg: Config, s: State, a: Action, t: Tid)
    requires Enabled(cfg, s, a) && !a.Release? && !a.WriteFails?
    ensures Account(Apply(cfg, s, a), t) == Account(s, t) + Called(a, t)
  {
    var logged := LoggedBy(s.log, t);
    assert Apply(cfg, s, a).log == s.log;
    if a.t == t && a.Call? { assert logged + [] + [a.p] == logged + [a.p]; }
  }

  /** Finishing moves what is under way to the log. */
  lemma FinishAccounts(cfg: Config, s: State, a: Action, t: Tid)
    requires Enabled(cfg, s, a) && (a.Release? || a.WriteFails?)
    ensures Account(Apply(cfg, s, a), t) == Account(s, t)
  {
    var th := ThreadOf(s, a.t);
    LoggedStep(s.log, Chunk(a.t, th.p, th.seqNo, th.written), t);
    assert ThreadOf(Apply(cfg, s, a), a.t) == Idle;
  }

  /** Every call of every thread is finished or still under way, exactly once and in the thread's order. */
  lemma {:induction false} CallsAccountedFor(cfg: Config, actions: seq<Action>, t: Tid)
    requires IsRun(cfg, actions)
    ensures CalledBy(actions, t) == Account(After(cfg, actions), t)
  {
    if actions != [] {
      var init := actions[..|actions| - 1];
      CallsAccountedFor(cfg, init, t);
      StepAccounts(cfg, After(cfg, init), actions[|actions| - 1], t);
    }
  }

  // ------------------------------------------------------------------
  // Splitting at newlines

  /** The terminated lines of a text. */
  function Lines(s: string): seq<string> {
    if s == "" then []
    else if s[|s| - 1] == NL then Lines(s[..|s| - 1]) + [Rest(s[..|s| - 1])]
    else Lines(s[..|s| - 1])
  }

  /** What follows the last newline. */
  function Rest(s: string): string {
    if s == "" || s[|s| - 1] == NL then "" else Rest(s[..|s| - 1]) + [s[|s| - 1]]
  }

  lemma {:induction false} SplitText(s: string, t: string)
    requires NL !in t
    ensures Lines(s + t) == Lines(s) && Rest(s + t) == Rest(s) + t
  {
    if t == "" {
      assert s + t == s;
    } else {
      var n := |t| - 1;
      assert (s + t)[..|s + t| - 1] == s + t[..n];
      SplitText(s, t[..n]);
      assert t[n] in t;
      ConcatAssoc(Rest(s), t[..n], [t[n]]);
      assert t[..n] + [t[n]] == t;
    }
  }

  lemma SplitLine(s: string, t: string)
    requires NL !in t
    ensures Lines(s + (t + [NL])) == Lines(s) + [Rest(s) + t] && Rest(s + (t + [NL])) == ""
  {
    SplitText(s, t);
    var whole := s + (t + [NL]);
    assert whole[..|whole| - 1] == s + t;
  }

  lemma DumpHasNoNewline(j: Json)
    ensures NL !in Dump(j)
  {
    DumpPrintable(j);
  }

  lemma PrefixHasNoNewline(j: Json, n: nat)
    requires n <= |Dump(j)|
    ensures NL !in Dump(j)[..n]
  {
    DumpPrintable(j);
  }

  // ------------------------------------------------------------------
  // Framing

  predicate AllWhole(cfg: Config, log: seq<Chunk>) {
    forall i :: 0 <= i < |log| ==> IsWhole(cfg, log[i])
  }

  function TextsOf(cfg: Config, log: seq<Chunk>): (r: seq<string>)
    ensures |r| == |log|
    ensures forall i :: 0 <= i < |log| ==> r[i] == Dump(Record(cfg, log[i].seqNo, log[i].p))
  {
    seq(|log|, i requires 0 <= i < |log| => Dump(Record(cfg, log[i].seqNo, log[i].p)))
  }

  /** In a log without failures the count is the length. */
  lemma {:induction false} WholeLogCount(cfg: Config, log: seq<Chunk>, n: nat)
    requires n <= |log| && AllWhole(cfg, log)
    ensures WholeCount(cfg, log[..n]) == n
  {
    if n > 0 {
      WholeLogCount(cfg, log, n - 1);
      assert log[..n][..n - 1] == log[..n - 1];
      assert IsWhole(cfg, log[n - 1]);
    }
  }

  lemma {:induction false} LogOkAt(cfg: Config, log: seq<Chunk>, i: nat)
    requires LogOk(cfg, log) && i < |log|
    ensures log[i].seqNo == WholeCount(cfg, log[..i])
  {
    var n := |log| - 1;
    if i < n {
      LogOkAt(cfg, log[..n], i);
      assert log[..n][..i] == log[..i];
    }
  }

  lemma WholeLogNumbers(cfg: Config, log: seq<Chunk>)
    requires LogOk(cfg, log) && AllWhole(cfg, log)
    ensures WholeCount(cfg, log) == |log|
    ensures forall i :: 0 <= i < |log| ==> log[i].seqNo == i
  {
    WholeLogCount(cfg, log, |log|);
    assert log[..|log|] == log;
    forall i | 0 <= i < |log|
      ensures log[i].seqNo == i
    {
      LogOkAt(cfg, log, i);
      WholeLogCount(cfg, log, i);
    }
  }

  lemma TextsStep(cfg: Config, log: seq<Chunk>, c: Chunk)
    ensures TextsOf(cfg, log + [c]) == TextsOf(cfg, log) + [Dump(Record(cfg, c.seqNo, c.p))]
  {
  }

  lemma {:induction false} WholeLogTexts(cfg: Config, log: seq<Chunk>)
    requires AllWhole(cfg, log)
    ensures WholeTexts(cfg, log) == TextsOf(cfg, log)
  {
    if log != [] {
      var before, c := log[..|log| - 1], log[|log| - 1];
      assert log == before + [c];
      WholeLogTexts(cfg, before);
      TextsStep(cfg, before, c);
    }
  }

  lemma WholeLogSplits(cfg: Config, log: seq<Chunk>)
    requires LogOk(cfg, log) && AllWhole(cfg, log)
    ensures WholeCount(cfg, log) == |log|
    ensures forall i :: 0 <= i < |log| ==> log[i].seqNo == i
    ensures Lines(Written(cfg, log)) == TextsOf(cfg, log) && Rest(Written(cfg, log)) == ""
  {
    WholeLogNumbers(cfg, log);
    WholeLogTexts(cfg, log);
    UntornSplits(cfg, log);
  }

  /** Reading a line gives an object that holds, under every name, what was emitted with that number. */
  ghost predicate Recovered(cfg: Config, seqNo: nat, p: Payload, text: string) {
    var read := Load(text);
    read.Some? && read.value.JObject? && forall name :: HoldsUnder(cfg, seqNo, p, name, Get(read.value.fields, name))
  }

  lemma RecordRecovered(cfg: Config, seqNo: nat, p: Payload)
    ensures Recovered(cfg, seqNo, p, Dump(Record(cfg, seqNo, p)))
  {
    LoadDump(Record(cfg, seqNo, p));
    forall name ensures HoldsUnder(cfg, seqNo, p, name, Get(Record(cfg, seqNo, p).fields, name)) {
      RecordHolds(cfg, seqNo, p, name);
    }
  }

  /**
   For every interleaving and every pattern of short writes, as long as no
   write fails: the sequence numbers are 0, 1, 2, ...; the file is those whole
   lines and a prefix of the line held under the lock; and splitting it at
   newlines and reading each line recovers exactly the finished emits, which
   together with those under way are each thread's calls, in order.
   */
  lemma FramingUnderThreads(cfg: Config, actions: seq<Action>)
    requires IsRun(cfg, actions) && AllWhole(cfg, After(cfg, actions).log)
    ensures var s := After(cfg, actions);
            && Inv(cfg, s) && s.sequence == |s.log|
            && s.file == Written(cfg, s.log) + Held(cfg, s)
            && (forall i :: 0 <= i < |s.log| ==> s.log[i].seqNo == i)
            && Lines(Written(cfg, s.log)) == TextsOf(cfg, s.log)
            && (forall i :: 0 <= i < |s.log| ==> Recovered(cfg, i, s.log[i].p, TextsOf(cfg, s.log)[i]))
            && (forall t: Tid :: CalledBy(actions, t) == Account(s, t))
  {
    RunKeepsInv(cfg, actions);
    var s := After(cfg, actions);
    WholeLogSplits(cfg, s.log);
    forall i | 0 <= i < |s.log|
      ensures Recovered(cfg, i, s.log[i].p, TextsOf(cfg, s.log)[i])
    {
      RecordRecovered(cfg, i, s.log[i].p);
    }
    forall t: Tid ensures CalledBy(actions, t) == Account(s, t) {
      CallsAccountedFor(cfg, actions, t);
    }
  }

  /** A line being written shows up as the unterminated rest, and as one more line once its newline is in. */
  lemma HeldLineSplits(cfg: Config, s: State)
    requires Inv(cfg, s) && AllWhole(cfg, s.log) && s.holder.Some?
    ensures var th := ThreadOf(s, s.holder.value);
            var text := Dump(Record(cfg, th.seqNo, th.p));
            if th.written <= |text|
            then Lines(s.file) == TextsOf(cfg, s.log) && Rest(s.file) == text[..th.written]
            else Lines(s.file) == TextsOf(cfg, s.log) + [text] && Rest(s.file) == ""
  {
    var th := ThreadOf(s, s.holder.value);
    var text := Dump(Record(cfg, th.seqNo, th.p));
    WholeLogSplits(cfg, s.log);
    if th.written <= |text| {
      PrefixHasNoNewline(Record(cfg, th.seqNo, th.p), th.written);
      assert (text + [NL])[..th.written] == text[..th.written];
      SplitText(Written(cfg, s.log), text[..th.written]);
      assert "" + text[..th.written] == text[..th.written];
    } else {
      DumpHasNoNewline(Record(cfg, th.seqNo, th.p));
      assert (text + [NL])[..th.written] == text + [NL];
      SplitLine(Written(cfg, s.log), text);
      assert "" + text == text;
    }
  }

  // ------------------------------------------------------------------
  // Failing writes

  predicate IsTorn(cfg: Config, c: Chunk) {
    0 < c.written < |TextOf(cfg, c)|
  }

  function WholeTexts(cfg: Config, log: seq<Chunk>): seq<string> {
    if log == [] then [] else
    var n := |log| - 1;
    WholeTexts(cfg, log[..n]) + (if IsWhole(cfg, log[n]) then [Dump(Record(cfg, log[n].seqNo, log[n].p))] else [])
  }

  function TotalLength(lines: seq<string>): nat {
    if lines == [] then 0 else TotalLength(lines[..|lines| - 1]) + |lines[|lines| - 1]| + 1
  }

  lemma {:induction false} SplitLoses(s: string)
    ensures |s| == TotalLength(Lines(s)) + |Rest(s)|
  {
    if s != "" {
      var init := s[..|s| - 1];
      SplitLoses(init);
      var lines := Lines(init) + [Rest(init)];
      assert lines[..|lines| - 1] == Lines(init);
    }
  }

  lemma TotalLengthStep(lines: seq<string>, line: string)
    ensures TotalLength(lines + [line]) == TotalLength(lines) + |line| + 1
  {
    assert (lines + [line])[..|lines|] == lines;
  }

  predicate AnyTorn(cfg: Config, log: seq<Chunk>) {
    exists i :: 0 <= i < |log| && IsTorn(cfg, log[i])
  }

  lemma AnyTornStep(cfg: Config, log: seq<Chunk>, c: Chunk)
    requires AnyTorn(cfg, log + [c])
    ensures AnyTorn(cfg, log) || IsTorn(cfg, c)
  {
    var i :| 0 <= i < |log + [c]| && IsTorn(cfg, (log + [c])[i]);
    if i < |log| { assert IsTorn(cfg, log[i]); }
  }

  /** Torn lines take room that no completed line accounts for. */
  lemma {:induction false} TornAddsLength(cfg: Config, log: seq<Chunk>)
    requires LogOk(cfg, log)
    ensures |Written(cfg, log)| >= TotalLength(WholeTexts(cfg, log))
    ensures AnyTorn(cfg, log) ==> |Written(cfg, log)| > TotalLength(WholeTexts(cfg, log))
  {
    if log != [] {
      var before, c := log[..|log| - 1], log[|log| - 1];
      TornAddsLength(cfg, before);
      TotalLengthStep(WholeTexts(cfg, before), Dump(Record(cfg, c.seqNo, c.p)));
      assert WholeTexts(cfg, before) + [] == WholeTexts(cfg, before);
      assert log == before + [c];
      if AnyTorn(cfg, log) { AnyTornStep(cfg, before, c); }
    }
  }

  lemma {:induction false} UntornSplits(cfg: Config, log: seq<Chunk>)
    requires LogOk(cfg, log) && forall i :: 0 <= i < |log| ==> !IsTorn(cfg, log[i])
    ensures Lines(Written(cfg, log)) == WholeTexts(cfg, log) && Rest(Written(cfg, log)) == ""
  {
    if log != [] {
      var n := |log| - 1;
      assert forall i :: 0 <= i < n ==> log[..n][i] == log[i];
      UntornSplits(cfg, log[..n]);
      var text := Dump(Record(cfg, log[n].seqNo, log[n].p));
      if IsWhole(cfg, log[n]) {
        DumpHasNoNewline(Record(cfg, log[n].seqNo, log[n].p));
        SplitLine(Written(cfg, log[..n]), text);
        assert TextOf(cfg, log[n])[..log[n].written] == text + [NL];
        assert "" + text == text;
      } else {
        assert log[n].written == 0;
        assert Written(cfg, log) == Written(cfg, log[..n]) + "";
        assert Written(cfg, log[..n]) + "" == Written(cfg, log[..n]);
        assert WholeTexts(cfg, log[..n]) + [] == WholeTexts(cfg, log[..n]);
      }
    }
  }

  /**
   With failing writes the file still splits into exactly the completed lines
   if and only if no write failed after a part of its line had been written: a
   torn line stays in the file and the next line is glued to it.
   */
  lemma FramingSurvivesFailuresExactly(cfg: Config, actions: seq<Action>)
    requires IsRun(cfg, actions) && After(cfg, actions).holder.None?
    ensures var s := After(cfg, actions);
            (Lines(s.file) == WholeTexts(cfg, s.log) && Rest(s.file) == "")
            <==> (forall i :: 0 <= i < |s.log| ==> !IsTorn(cfg, s.log[i]))
  {
    RunKeepsInv(cfg, actions);
    var s := After(cfg, actions);
    assert s.file == Written(cfg, s.log) by { assert Written(cfg, s.log) + "" == Written(cfg, s.log); }
    SplitLoses(s.file);
    TornAddsLength(cfg, s.log);
    if forall i :: 0 <= i < |s.log| ==> !IsTorn(cfg, s.log[i]) {
      UntornSplits(cfg, s.log);
    }
  }

  /** Extending a run by one enabled action. */
  lemma RunStep(cfg: Config, actions: seq<Action>, a: Action)
    requires IsRun(cfg, actions) && Enabled(cfg, After(cfg, actions), a)
    ensures IsRun(cfg, actions + [a]) && After(cfg, actions + [a]) == Apply(cfg, After(cfg, actions), a)
  {
    assert (actions + [a])[..|actions + [a]| - 1] == actions;
  }

  /** The steps of an emit whose first write accepts one byte and whose second fails. */
  function TornStep(p: Payload, k: nat): Action {
    if k == 0 then Call(0, p) else if k == 1 then Acquire(0) else if k == 2 then Write(0, 1) else WriteFails(0)
  }

  /** The states between them. */
  function TornState(p: Payload, k: nat): State {
    if k == 0 then INITIAL
    else if k == 1 then State("", 0, None, map[0 := Waiting(p)], [])
    else if k == 2 then State("", 0, Some(0), map[0 := Writing(p, 0, 0)], [])
    else if k == 3 then State("{", 0, Some(0), map[0 := Writing(p, 0, 1)], [])
    else State("{", 0, None, map[0 := Idle], [Chunk(0, p, 0, 1)])
  }

  function TornSteps(p: Payload, k: nat): seq<Action> {
    if k == 0 then [] else TornSteps(p, k - 1) + [TornStep(p, k - 1)]
  }

  function TornEmit(p: Payload): seq<Action> {
    TornSteps(p, 4)
  }

  lemma FirstByte(cfg: Config, p: Payload)
    ensures |Line(cfg, 0, p)| > 1 && Line(cfg, 0, p)[0..1] == "{"
  {
    assert Line(cfg, 0, p)[0] == '{';
  }

  lemma TornStepLeads(cfg: Config, p: Payload, k: nat)
    requires k < 4
    ensures Enabled(cfg, TornState(p, k), TornStep(p, k))
    ensures Apply(cfg, TornState(p, k), TornStep(p, k)) == TornState(p, k + 1)
  {
    FirstByte(cfg, p);
    if k == 2 { assert "" + Line(cfg, 0, p)[0..0 + 1] == "{"; }
  }

  lemma {:induction false} TornRuns(cfg: Config, p: Payload, k: nat)
    requires k <= 4
    ensures IsRun(cfg, TornSteps(p, k)) && After(cfg, TornSteps(p, k)) == TornState(p, k)
  {
    if k > 0 {
      TornRuns(cfg, p, k - 1);
      TornStepLeads(cfg, p, k - 1);
      RunStep(cfg, TornSteps(p, k - 1), TornStep(p, k - 1));
    }
  }

  /** A torn line leaves its first byte in the file, where no line has been completed. */
  lemma TornLineStays(cfg: Config, p: Payload)
    ensures IsRun(cfg, TornEmit(p))
    ensures var s := After(cfg, TornEmit(p));
            && s.holder.None? && ThreadOf(s, 0).Idle? && s.file == "{" && s.sequence == 0
            && WholeTexts(cfg, s.log) == [] && Rest(s.file) == "{"
  {
    TornRuns(cfg, p, 4);
    FirstByte(cfg, p);
    BraceSplits();
    var log := [Chunk(0, p, 0, 1)];
    assert log[..0] == [] && !IsWhole(cfg, log[0]);
  }

  /** One undisturbed emit, written at once. */
  function EmitOnce(actions: seq<Action>, length: nat, p: Payload): seq<Action> {
    actions + [Call(0, p)] + [Acquire(0)] + [Write(0, length)] + [Release(0)]
  }

  lemma EmitsLine(cfg: Config, actions: seq<Action>, p: Payload)
    requires IsRun(cfg, actions) && After(cfg, actions).holder.None? && ThreadOf(After(cfg, actions), 0).Idle?
    ensures var s := After(cfg, actions);
            var line := Line(cfg, s.sequence, p);
            IsRun(cfg, EmitOnce(actions, |line|, p)) && After(cfg, EmitOnce(actions, |line|, p)).file == s.file + line
  {
    var line := Line(cfg, After(cfg, actions).sequence, p);
    RunStep(cfg, actions, Call(0, p));
    RunStep(cfg, actions + [Call(0, p)], Acquire(0));
    RunStep(cfg, actions + [Call(0, p)] + [Acquire(0)], Write(0, |line|));
    assert line[0..0 + |line|] == line;
    RunStep(cfg, actions + [Call(0, p)] + [Acquire(0)] + [Write(0, |line|)], Release(0));
  }

  /** The next record is glued to the torn one: the only line of the file is neither record. */
  lemma TornLineGlues(cfg: Config, p: Payload, q: Payload)
    ensures var run := EmitOnce(TornEmit(p), |Line(cfg, 0, q)|, q);
            IsRun(cfg, run) && Lines(After(cfg, run).file) == ["{" + Dump(Record(cfg, 0, q))]
  {
    var text := Dump(Record(cfg, 0, q));
    TornLineStays(cfg, p);
    EmitsLine(cfg, TornEmit(p), q);
    DumpHasNoNewline(Record(cfg, 0, q));
    SplitLine("{", text);
    BraceSplits();
    assert [] + ["{" + text] == ["{" + text];
  }

  lemma BraceSplits()
    ensures Lines("{") == [] && Rest("{") == "{"
  {
    assert "{"[..0] == "";
    assert Lines("{") == Lines("") && Rest("{") == Rest("") + ['{'];
  }
}
