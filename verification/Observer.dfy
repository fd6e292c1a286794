/**
 The events an observed worker emits around test construction, test runs and
 test methods, whatever the tests do and wherever they raise.

 A script is what the runner and the tests do, in order; bodies may raise, and a
 raise ends every enclosing body up to the first one that swallows it. Events
 are what the channel carries: a test is named by its class and method there,
 while the observer tells tests apart by their ids.
 */
module Observer {
  import opened Common
  import opened Budget
  import opened Recording

  /** A test's class and method name. */
  type Identity = (string, string)

  datatype Test = Test(id: string, inSelectedFile: bool, identity: Identity)

  /** The configured test: the id to match and the name to report. */
  datatype Selection = Selection(id: string, test: Identity)

  datatype Act =
    | Construct(test: Test)                                // TestCase.__init__ completed
    | RunTest(test: Test, body: seq<Act>, swallows: bool)  // TestCase.run, around what the original does
    | CallMethod(test: Test, body: seq<Act>, swallows: bool)
    | Report(cb: Callback)                                 // a callback on the result in force
    | ReachProbe(token: string)
    | RaiseException

  datatype Event =
    | SessionStart
    | SessionEnd
    | Collected(test: Identity)
    | TestStart(test: Identity)
    | WindowStart(test: Identity)
    | WindowEnd(test: Identity)
    | TestResult(test: Identity, outcome: Outcome, assertionFailure: bool, diagnosis: Option<Graph>)
    | Reach(token: string)

  /** The observer's state, and the callbacks received by the result in force. */
  datatype World = World(collected: set<string>, events: seq<Event>, callbacks: seq<Callback>)

  /** What is reported when the selected test's run ends, by returning or by raising. */
  function ResultOf(test: Identity, r: Recorded): Event {
    var outcome := if r.outcome.Some? then r.outcome.value else Failed;
    TestResult(test, outcome, outcome == Failed && r.assertion,
               if outcome == Failed
               then Some(if r.diagnostic.Some? then r.diagnostic.value else UnavailableGraph([], None))
               else None)
  }

  function Emit(w: World, e: Event): World {
    w.(events := w.events + [e])
  }

  function Collect(w: World, t: Test): World {
    if t.inSelectedFile && t.id !in w.collected
    then Emit(w.(collected := w.collected + {t.id}), Collected(t.identity))
    else w
  }

  /** Another test's run: announced if it is in the selected file. */
  function Announce(w: World, t: Test): World {
    if t.inSelectedFile then Emit(w, TestStart(t.identity)) else w
  }

  predicate Raises(a: Act)
    decreases a, 1
  {
    match a
    case RunTest(_, body, swallows) => RaisesAll(body) && !swallows
    case CallMethod(_, body, swallows) => RaisesAll(body) && !swallows
    case RaiseException => true
    case _ => false
  }

  predicate RaisesAll(acts: seq<Act>)
    decreases acts, 0
  {
    acts != [] && (Raises(acts[0]) || RaisesAll(acts[1..]))
  }

  /** The world after one act. */
  function Perform(sel: Selection, w: World, a: Act): World
    decreases a, 1
  {
    match a
    case Construct(t) => Collect(w, t)
    case RunTest(t, body, _) =>
      if t.id != sel.id then PerformAll(sel, Announce(w, t), body) else
      var w1 := PerformAll(sel, Emit(w, TestStart(sel.test)).(callbacks := []), body);
      Emit(w1, ResultOf(sel.test, RecordAll(w1.callbacks))).(callbacks := w.callbacks)
    case CallMethod(t, body, _) =>
      if t.id != sel.id then PerformAll(sel, w, body)
      else Emit(PerformAll(sel, Emit(w, WindowStart(sel.test)), body), WindowEnd(sel.test))
    case Report(cb) => w.(callbacks := w.callbacks + [cb])
    case ReachProbe(token) => Emit(w, Reach(token))
    case RaiseException => w
  }

  /** The world after as many of the acts as are performed. */
  function PerformAll(sel: Selection, w: World, acts: seq<Act>): World
    decreases acts, 0
  {
    if acts == [] then w
    else if Raises(acts[0]) then Perform(sel, w, acts[0])
    else PerformAll(sel, Perform(sel, w, acts[0]), acts[1..])
  }

  const FRESH := World({}, [], [])

  /** The whole worker: session_start, the run, and session_end at exit. */
  function Session(sel: Selection, script: seq<Act>): seq<Event> {
    PerformAll(sel, Emit(FRESH, SessionStart), script).events + [SessionEnd]
  }

  // ------------------------------------------------------------------
  // The observer as installed: patched methods around the original ones

  class ObserverState {
    const sel: Selection
    var collected: set<string>
    var events: seq<Event>
    var result: RecordingResult  // the result in force; outside the selected run it stands for the runner's own

    constructor (sel: Selection)
      ensures this.sel == sel && Valid() && Now() == FRESH && fresh(result)
    {
      this.sel := sel;
      collected, events := {}, [];
      result := new RecordingResult();
    }

    ghost predicate Valid()
      reads this, result
    {
      result.Now() == RecordAll(result.inner)
    }

    ghost function Now(): World
      reads this, result
    {
      World(collected, events, result.inner)
    }

    method ObservedInit(t: Test)
      modifies this`collected, this`events
      ensures Now() == Collect(old(Now()), t)
    {
      if t.inSelectedFile {
        if t.id !in collected {
          collected := collected + {t.id};
          events := events + [Collected(t.identity)];
        }
      }
    }

    method ObservedRun(a: Act) returns (raises: bool)
      requires a.RunTest? && Valid()
      modifies this, result
      ensures Valid() && result == old(result)
      ensures Now() == Perform(sel, old(Now()), a) && raises == Raises(a)
      decreases a, 1
    {
      if a.test.id != sel.id {
        if a.test.inSelectedFile {
          events := events + [TestStart(a.test.identity)];
        }
        var raised := RunAll(a.body);
        return raised && !a.swallows;
      }
      var outer := result;
      events := events + [TestStart(sel.test)];
      result := new RecordingResult();
      var raised := RunAll(a.body);
      // finally
      events := events + [ResultOf(sel.test, Recorded(result.outcome, result.assertion, result.diagnostic))];
      result := outer;
      return raised && !a.swallows;
    }

    method ObservedCall(a: Act) returns (raises: bool)
      requires a.CallMethod? && Valid()
      modifies this, result
      ensures Valid() && result == old(result)
      ensures Now() == Perform(sel, old(Now()), a) && raises == Raises(a)
      decreases a, 1
    {
      if a.test.id != sel.id {
        var raised := RunAll(a.body);
        return raised && !a.swallows;
      }
      events := events + [WindowStart(sel.test)];
      var raised := RunAll(a.body);
      // finally
      events := events + [WindowEnd(sel.test)];
      return raised && !a.swallows;
    }

    method RunAll(acts: seq<Act>) returns (raised: bool)
      requires Valid()
      modifies this, result
      ensures Valid() && result == old(result)
      ensures Now() == PerformAll(sel, old(Now()), acts) && raised == RaisesAll(acts)
      decreases acts, 0
    {
      var index := 0;
      while index < |acts|
        invariant 0 <= index <= |acts| && Valid() && result == old(result)
        invariant PerformAll(sel, Now(), acts[index..]) == PerformAll(sel, old(Now()), acts)
        invariant RaisesAll(acts[index..]) == RaisesAll(acts)
      {
        var a := acts[index];
        assert acts[index..][0] == a && acts[index..][1..] == acts[index + 1..];
        raised := Step(a);
        if raised {
          return true;
        }
        index := index + 1;
      }
      return false;
    }

    method Step(a: Act) returns (raised: bool)
      requires Valid()
      modifies this, result
      ensures Valid() && result == old(result)
      ensures Now() == Perform(sel, old(Now()), a) && raised == Raises(a)
      decreases a, 2
    {
      raised := false;
      match a {
        case Construct(t) => ObservedInit(t);
        case RunTest(_, _, _) => raised := ObservedRun(a);
        case CallMethod(_, _, _) => raised := ObservedCall(a);
        case Report(cb) => result.Receive(cb);
        case ReachProbe(token) => events := events + [Reach(token)];
        case RaiseException => raised := true;
      }
    }
  }

  // ------------------------------------------------------------------
  // What was performed

  /** Selected runs, calls of the selected method, and runs of another test that is reported under the selected name. */
  datatype ActKind = Run | Call | Namesake

  predicate IsAct(sel: Selection, a: Act, k: ActKind) {
    match k
    case Run => a.RunTest? && a.test.id == sel.id
    case Call => a.CallMethod? && a.test.id == sel.id
    case Namesake => a.RunTest? && a.test.id != sel.id && a.test.inSelectedFile && a.test.identity == sel.test
  }

  /** How many acts of a kind are performed in an act. */
  function Tally(sel: Selection, a: Act, k: ActKind): nat
    decreases a, 1
  {
    (if IsAct(sel, a, k) then 1 else 0) + (if a.RunTest? || a.CallMethod? then TallyAll(sel, a.body, k) else 0)
  }

  function TallyAll(sel: Selection, acts: seq<Act>, k: ActKind): nat
    decreases acts, 0
  {
    if acts == [] then 0
    else Tally(sel, acts[0], k) + (if Raises(acts[0]) then 0 else TallyAll(sel, acts[1..], k))
  }

  /** The tests of the selected file that are constructed in an act, in order. */
  function Constructed(a: Act): seq<Test>
    decreases a, 1
  {
    match a
    case Construct(t) => if t.inSelectedFile then [t] else []
    case RunTest(_, body, _) => ConstructedAll(body)
    case CallMethod(_, body, _) => ConstructedAll(body)
    case _ => []
  }

  function ConstructedAll(acts: seq<Act>): seq<Test>
    decreases acts, 0
  {
    if acts == [] then []
    else Constructed(acts[0]) + (if Raises(acts[0]) then [] else ConstructedAll(acts[1..]))
  }

  /** The callbacks an act makes on the result that is in force when it starts. */
  function Callbacks(sel: Selection, a: Act): seq<Callback>
    decreases a, 1
  {
    match a
    case Report(cb) => [cb]
    case RunTest(t, body, _) => if t.id == sel.id then [] else CallbacksAll(sel, body)
    case CallMethod(_, body, _) => CallbacksAll(sel, body)
    case _ => []
  }

  /** Up to a raise, and without those of nested selected runs. */
  function CallbacksAll(sel: Selection, acts: seq<Act>): seq<Callback>
    decreases acts, 0
  {
    if acts == [] then []
    else Callbacks(sel, acts[0]) + (if Raises(acts[0]) then [] else CallbacksAll(sel, acts[1..]))
  }

  lemma {:induction false} CallbacksReceived(sel: Selection, w: World, a: Act)
    ensures Perform(sel, w, a).callbacks == w.callbacks + Callbacks(sel, a)
    decreases a, 1
  {
    match a
    case RunTest(t, body, _) => if t.id != sel.id { AllCallbacksReceived(sel, Announce(w, t), body); }
    case CallMethod(t, body, _) =>
      AllCallbacksReceived(sel, if t.id != sel.id then w else Emit(w, WindowStart(sel.test)), body);
    case _ =>
  }

  /** The result in force receives exactly the callbacks that are made on it, in order. */
  lemma {:induction false} AllCallbacksReceived(sel: Selection, w: World, acts: seq<Act>)
    ensures PerformAll(sel, w, acts).callbacks == w.callbacks + CallbacksAll(sel, acts)
    decreases acts, 0
  {
    if acts != [] {
      CallbacksReceived(sel, w, acts[0]);
      if !Raises(acts[0]) {
        AllCallbacksReceived(sel, Perform(sel, w, acts[0]), acts[1..]);
        ConcatAssoc(w.callbacks, Callbacks(sel, acts[0]), CallbacksAll(sel, acts[1..]));
      }
    }
  }

  /** The tokens an act announces, in order. */
  function Tokens(a: Act): seq<string>
    decreases a, 1
  {
    match a
    case ReachProbe(token) => [token]
    case RunTest(_, body, _) => TokensAll(body)
    case CallMethod(_, body, _) => TokensAll(body)
    case _ => []
  }

  function TokensAll(acts: seq<Act>): seq<string>
    decreases acts, 0
  {
    if acts == [] then [] else Tokens(acts[0]) + (if Raises(acts[0]) then [] else TokensAll(acts[1..]))
  }

  /** The tests whose start an act announces, in order: the selected one by its configured name. */
  function Starts(sel: Selection, a: Act): seq<Identity>
    decreases a, 1
  {
    match a
    case RunTest(t, body, _) =>
      (if t.id == sel.id then [sel.test] else if t.inSelectedFile then [t.identity] else []) + StartsAll(sel, body)
    case CallMethod(_, body, _) => StartsAll(sel, body)
    case _ => []
  }

  function StartsAll(sel: Selection, acts: seq<Act>): seq<Identity>
    decreases acts, 0
  {
    if acts == [] then [] else Starts(sel, acts[0]) + (if Raises(acts[0]) then [] else StartsAll(sel, acts[1..]))
  }

  /** The tokens and the test starts of an event sequence. */
  function TokensIn(events: seq<Event>): seq<string> {
    if events == [] then [] else
    var last := events[|events| - 1];
    TokensIn(events[..|events| - 1]) + (if last.Reach? then [last.token] else [])
  }

  function StartsIn(events: seq<Event>): seq<Identity> {
    if events == [] then [] else
    var last := events[|events| - 1];
    StartsIn(events[..|events| - 1]) + (if last.TestStart? then [last.test] else [])
  }

  lemma AnnouncedStep(events: seq<Event>, e: Event)
    ensures TokensIn(events + [e]) == if e.Reach? then TokensIn(events) + [e.token] else TokensIn(events)
    ensures StartsIn(events + [e]) == if e.TestStart? then StartsIn(events) + [e.test] else StartsIn(events)
  {
    assert (events + [e])[..|events + [e]| - 1] == events;
    assert TokensIn(events) + [] == TokensIn(events) && StartsIn(events) + [] == StartsIn(events);
  }

  /** What was announced before, and then these. */
  ghost predicate Announces(before: World, after: World, tokens: seq<string>, starts: seq<Identity>) {
    && TokensIn(after.events) == TokensIn(before.events) + tokens
    && StartsIn(after.events) == StartsIn(before.events) + starts
  }

  lemma {:induction false} ActAnnounces(sel: Selection, w: World, a: Act)
    ensures Announces(w, Perform(sel, w, a), Tokens(a), Starts(sel, a))
    decreases a, 1
  {
    match a
    case Construct(t) => AnnouncedStep(w.events, Collected(t.identity));
    case RunTest(_, _, _) => RunAnnounces(sel, w, a);
    case CallMethod(t, body, _) =>
      if t.id != sel.id {
        ActsAnnounce(sel, w, body);
      } else {
        var started := Emit(w, WindowStart(sel.test));
        AnnouncedStep(w.events, WindowStart(sel.test));
        ActsAnnounce(sel, started, body);
        AnnouncedStep(PerformAll(sel, started, body).events, WindowEnd(sel.test));
      }
    case ReachProbe(token) => AnnouncedStep(w.events, Reach(token));
    case _ =>
  }

  lemma {:induction false} RunAnnounces(sel: Selection, w: World, a: Act)
    requires a.RunTest?
    ensures Announces(w, Perform(sel, w, a), Tokens(a), Starts(sel, a))
    decreases a, 0, 1
  {
    if a.test.id == sel.id { SelectedRunAnnounces(sel, w, a); } else { OtherRunAnnounces(sel, w, a); }
  }

  lemma {:induction false} OtherRunAnnounces(sel: Selection, w: World, a: Act)
    requires a.RunTest? && a.test.id != sel.id
    ensures Announces(w, Perform(sel, w, a), Tokens(a), Starts(sel, a))
    decreases a, 0, 0
  {
    var mine := if a.test.inSelectedFile then [a.test.identity] else [];
    AnnouncedStep(w.events, TestStart(a.test.identity));
    ActsAnnounce(sel, Announce(w, a.test), a.body);
    ConcatAssoc(StartsIn(w.events), mine, StartsAll(sel, a.body));
    assert StartsIn(Announce(w, a.test).events) == StartsIn(w.events) + mine;
  }

  lemma {:induction false} SelectedRunAnnounces(sel: Selection, w: World, a: Act)
    requires a.RunTest? && a.test.id == sel.id
    ensures Announces(w, Perform(sel, w, a), Tokens(a), Starts(sel, a))
    decreases a, 0, 0
  {
    var started := Emit(w, TestStart(sel.test)).(callbacks := []);
    AnnouncedStep(w.events, TestStart(sel.test));
    ActsAnnounce(sel, started, a.body);
    ConcatAssoc(StartsIn(w.events), [sel.test], StartsAll(sel, a.body));
    var w1 := PerformAll(sel, started, a.body);
    AnnouncedStep(w1.events, ResultOf(sel.test, RecordAll(w1.callbacks)));
  }

  lemma {:induction false} ActsAnnounce(sel: Selection, w: World, acts: seq<Act>)
    ensures Announces(w, PerformAll(sel, w, acts), TokensAll(acts), StartsAll(sel, acts))
    decreases acts, 0
  {
    if acts != [] {
      ActAnnounces(sel, w, acts[0]);
      if !Raises(acts[0]) {
        ActsAnnounce(sel, Perform(sel, w, acts[0]), acts[1..]);
        ConcatAssoc(TokensIn(w.events), Tokens(acts[0]), TokensAll(acts[1..]));
        ConcatAssoc(StartsIn(w.events), Starts(sel, acts[0]), StartsAll(sel, acts[1..]));
      }
    }
  }

  /** A session announces every token its probes reach and the start of every run in the selected file, in order. */
  lemma SessionAnnounces(sel: Selection, script: seq<Act>)
    ensures TokensIn(Session(sel, script)) == TokensAll(script)
    ensures StartsIn(Session(sel, script)) == StartsAll(sel, script)
  {
    var begun := Emit(FRESH, SessionStart);
    NothingAnnounced();
    ActsAnnounce(sel, begun, script);
    AnnouncedStep(PerformAll(sel, begun, script).events, SessionEnd);
    assert [] + TokensAll(script) == TokensAll(script);
    assert [] + StartsAll(sel, script) == StartsAll(sel, script);
  }

  lemma NothingAnnounced()
    ensures var events := Emit(FRESH, SessionStart).events; TokensIn(events) == [] && StartsIn(events) == []
  {
    var events := Emit(FRESH, SessionStart).events;
    assert events == [SessionStart] && events[..0] == [];
  }

  // ------------------------------------------------------------------
  // Brackets, as a reader of the channel sees them

  datatype Bracket = InTest | InWindow

  /** What an event opens for the given test. */
  function Opens(test: Identity, e: Event): Option<Bracket> {
    if e.TestStart? && e.test == test then Some(InTest)
    else if e.WindowStart? && e.test == test then Some(InWindow)
    else None
  }

  function Closes(test: Identity, e: Event): Option<Bracket> {
    if e.TestResult? && e.test == test then Some(InTest)
    else if e.WindowEnd? && e.test == test then Some(InWindow)
    else None
  }

  /** Reads the brackets of one test against a stack; None: a close without its open. */
  function Scan(test: Identity, events: seq<Event>, stack: seq<Bracket>): Option<seq<Bracket>> {
    if events == [] then Some(stack)
    else After(test, Scan(test, events[..|events| - 1], stack), events[|events| - 1])
  }

  function After(test: Identity, before: Option<seq<Bracket>>, e: Event): Option<seq<Bracket>> {
    if before.None? then None
    else if Opens(test, e).Some? then Some(before.value + [Opens(test, e).value])
    else if Closes(test, e).Some? then Close(before.value, Closes(test, e).value)
    else before
  }

  function Close(s: seq<Bracket>, b: Bracket): Option<seq<Bracket>> {
    if s != [] && s[|s| - 1] == b then Some(s[..|s| - 1]) else None
  }

  lemma ScanStep(test: Identity, events: seq<Event>, e: Event, stack: seq<Bracket>)
    ensures Scan(test, events + [e], stack) == After(test, Scan(test, events, stack), e)
  {
    assert (events + [e])[..|events + [e]| - 1] == events;
  }

  /** Without a namesake, what an act adds is balanced. */
  lemma {:induction false} PerformBalanced(sel: Selection, w: World, a: Act, stack: seq<Bracket>)
    requires Tally(sel, a, Namesake) == 0
    ensures Scan(sel.test, Perform(sel, w, a).events, stack) == Scan(sel.test, w.events, stack)
    decreases a, 1
  {
    match a
    case Construct(t) => ScanStep(sel.test, w.events, Collected(t.identity), stack);
    case RunTest(_, _, _) => RunBalanced(sel, w, a, stack);
    case CallMethod(_, _, _) => CallBalanced(sel, w, a, stack);
    case ReachProbe(token) => ScanStep(sel.test, w.events, Reach(token), stack);
    case _ =>
  }

  lemma {:induction false} RunBalanced(sel: Selection, w: World, a: Act, stack: seq<Bracket>)
    requires a.RunTest? && Tally(sel, a, Namesake) == 0
    ensures Scan(sel.test, Perform(sel, w, a).events, stack) == Scan(sel.test, w.events, stack)
    decreases a, 0
  {
    if a.test.id != sel.id {
      ScanStep(sel.test, w.events, TestStart(a.test.identity), stack);
      PerformAllBalanced(sel, Announce(w, a.test), a.body, stack);
    } else {
      var started := Emit(w, TestStart(sel.test)).(callbacks := []);
      PerformAllBalanced(sel, started, a.body, stack);
      var w1 := PerformAll(sel, started, a.body);
      CloseBracket(sel.test, w.events, w1.events, TestStart(sel.test), ResultOf(sel.test, RecordAll(w1.callbacks)),
          stack);
    }
  }

  lemma {:induction false} CallBalanced(sel: Selection, w: World, a: Act, stack: seq<Bracket>)
    requires a.CallMethod? && Tally(sel, a, Namesake) == 0
    ensures Scan(sel.test, Perform(sel, w, a).events, stack) == Scan(sel.test, w.events, stack)
    decreases a, 0
  {
    if a.test.id != sel.id {
      PerformAllBalanced(sel, w, a.body, stack);
    } else {
      var started := Emit(w, WindowStart(sel.test));
      PerformAllBalanced(sel, started, a.body, stack);
      CloseBracket(sel.test, w.events, PerformAll(sel, started, a.body).events, WindowStart(sel.test),
          WindowEnd(sel.test), stack);
    }
  }

  /** Closing what was opened restores the stack. */
  lemma CloseBracket(
    test: Identity, before: seq<Event>, inside: seq<Event>, open: Event, close: Event, stack: seq<Bracket>)
    requires Opens(test, open).Some? && Opens(test, close).None? && Closes(test, close) == Opens(test, open)
    requires Scan(test, inside, stack) == Scan(test, before + [open], stack)
    ensures Scan(test, inside + [close], stack) == Scan(test, before, stack)
  {
    ScanStep(test, before, open, stack);
    ScanStep(test, inside, close, stack);
    Reopened(test, Scan(test, before, stack), open, close);
  }

  lemma Reopened(test: Identity, before: Option<seq<Bracket>>, open: Event, close: Event)
    requires Opens(test, open).Some? && Opens(test, close).None? && Closes(test, close) == Opens(test, open)
    ensures After(test, After(test, before, open), close) == before
  {
    if before.Some? {
      var s, b := before.value, Opens(test, open).value;
      assert (s + [b])[..|s + [b]| - 1] == s;
    }
  }

  lemma {:induction false} PerformAllBalanced(sel: Selection, w: World, acts: seq<Act>, stack: seq<Bracket>)
    requires TallyAll(sel, acts, Namesake) == 0
    ensures Scan(sel.test, PerformAll(sel, w, acts).events, stack) == Scan(sel.test, w.events, stack)
    decreases acts, 0
  {
    if acts != [] {
      PerformBalanced(sel, w, acts[0], stack);
      if !Raises(acts[0]) { PerformAllBalanced(sel, Perform(sel, w, acts[0]), acts[1..], stack); }
    }
  }

  // ------------------------------------------------------------------
  // How many

  datatype Kind = Start | Result | Window | WindowClose | Session

  /** Events of a kind that name the given test. */
  predicate IsKind(test: Identity, e: Event, k: Kind) {
    match k
    case Start => e.TestStart? && e.test == test
    case Result => e.TestResult? && e.test == test
    case Window => e.WindowStart? && e.test == test
    case WindowClose => e.WindowEnd? && e.test == test
    case Session => e.SessionStart? || e.SessionEnd?
  }

  function One(b: bool): nat {
    if b then 1 else 0
  }

  function Count(test: Identity, events: seq<Event>, k: Kind): nat {
    if events == [] then 0
    else Count(test, events[..|events| - 1], k) + One(IsKind(test, events[|events| - 1], k))
  }

  lemma CountStep(test: Identity, events: seq<Event>, e: Event, k: Kind)
    ensures Count(test, events + [e], k) == Count(test, events, k) + One(IsKind(test, e, k))
  {
    assert (events + [e])[..|events + [e]| - 1] == events;
  }

  /** The events of a kind that performed acts account for. */
  function Due(runs: nat, calls: nat, namesakes: nat, k: Kind): nat {
    match k
    case Start => runs + namesakes
    case Result => runs
    case Window => calls
    case WindowClose => calls
    case Session => 0
  }

  function DueIn(sel: Selection, a: Act, k: Kind): nat {
    Due(Tally(sel, a, Run), Tally(sel, a, Call), Tally(sel, a, Namesake), k)
  }

  function DueInAll(sel: Selection, acts: seq<Act>, k: Kind): nat {
    Due(TallyAll(sel, acts, Run), TallyAll(sel, acts, Call), TallyAll(sel, acts, Namesake), k)
  }

  /** The events of a kind that an act accounts for by itself. */
  function DueAt(sel: Selection, a: Act, k: Kind): nat {
    Due(One(IsAct(sel, a, Run)), One(IsAct(sel, a, Call)), One(IsAct(sel, a, Namesake)), k)
  }

  lemma DueSplits(sel: Selection, a: Act, k: Kind)
    ensures DueIn(sel, a, k) == DueAt(sel, a, k) + (if a.RunTest? || a.CallMethod? then DueInAll(sel, a.body, k) else 0)
  {
  }

  lemma {:induction false} PerformCounts(sel: Selection, w: World, a: Act, k: Kind)
    ensures Count(sel.test, Perform(sel, w, a).events, k) == Count(sel.test, w.events, k) + DueIn(sel, a, k)
    decreases a, 1
  {
    DueSplits(sel, a, k);
    if a.RunTest? {
      if a.test.id == sel.id { SelectedRunCounts(sel, w, a, k); } else { OtherRunCounts(sel, w, a, k); }
    } else if a.CallMethod? {
      CallCounts(sel, w, a, k);
    } else {
      LeafCounts(sel, w, a, k);
    }
  }

  lemma LeafCounts(sel: Selection, w: World, a: Act, k: Kind)
    requires !a.RunTest? && !a.CallMethod?
    ensures Count(sel.test, Perform(sel, w, a).events, k) == Count(sel.test, w.events, k) && DueAt(sel, a, k) == 0
  {
    match a
    case Construct(t) => CountStep(sel.test, w.events, Collected(t.identity), k);
    case ReachProbe(token) => CountStep(sel.test, w.events, Reach(token), k);
    case _ =>
  }

  lemma {:induction false} OtherRunCounts(sel: Selection, w: World, a: Act, k: Kind)
    requires a.RunTest? && a.test.id != sel.id
    ensures Count(sel.test, Perform(sel, w, a).events, k)
         == Count(sel.test, w.events, k) + DueAt(sel, a, k) + DueInAll(sel, a.body, k)
    decreases a, 0
  {
    CountStep(sel.test, w.events, TestStart(a.test.identity), k);
    PerformAllCounts(sel, Announce(w, a.test), a.body, k);
  }

  lemma {:induction false} SelectedRunCounts(sel: Selection, w: World, a: Act, k: Kind)
    requires a.RunTest? && a.test.id == sel.id
    ensures Count(sel.test, Perform(sel, w, a).events, k)
         == Count(sel.test, w.events, k) + DueAt(sel, a, k) + DueInAll(sel, a.body, k)
    decreases a, 0
  {
    var started := Emit(w, TestStart(sel.test)).(callbacks := []);
    CountStep(sel.test, w.events, TestStart(sel.test), k);
    PerformAllCounts(sel, started, a.body, k);
    var w1 := PerformAll(sel, started, a.body);
    var result := ResultOf(sel.test, RecordAll(w1.callbacks));
    CountStep(sel.test, w1.events, result, k);
    SelectedRunDue(sel, a, result, k);
  }

  lemma SelectedRunDue(sel: Selection, a: Act, result: Event, k: Kind)
    requires a.RunTest? && a.test.id == sel.id && result.TestResult? && result.test == sel.test
    ensures DueAt(sel, a, k) == One(IsKind(sel.test, TestStart(sel.test), k)) + One(IsKind(sel.test, result, k))
  {
  }

  lemma {:induction false} CallCounts(sel: Selection, w: World, a: Act, k: Kind)
    requires a.CallMethod?
    ensures Count(sel.test, Perform(sel, w, a).events, k)
         == Count(sel.test, w.events, k) + DueAt(sel, a, k) + DueInAll(sel, a.body, k)
    decreases a, 0
  {
    if a.test.id != sel.id {
      PerformAllCounts(sel, w, a.body, k);
    } else {
      var started := Emit(w, WindowStart(sel.test));
      CountStep(sel.test, w.events, WindowStart(sel.test), k);
      PerformAllCounts(sel, started, a.body, k);
      CountStep(sel.test, PerformAll(sel, started, a.body).events, WindowEnd(sel.test), k);
    }
    CallDue(sel, a, k);
  }

  lemma CallDue(sel: Selection, a: Act, k: Kind)
    requires a.CallMethod?
    ensures DueAt(sel, a, k)
         == if a.test.id == sel.id
            then One(IsKind(sel.test, WindowStart(sel.test), k)) + One(IsKind(sel.test, WindowEnd(sel.test), k)) else 0
  {
  }

  lemma {:induction false} PerformAllCounts(sel: Selection, w: World, acts: seq<Act>, k: Kind)
    ensures Count(sel.test, PerformAll(sel, w, acts).events, k) == Count(sel.test, w.events, k) + DueInAll(sel, acts, k)
    decreases acts, 0
  {
    if acts != [] {
      PerformCounts(sel, w, acts[0], k);
      if !Raises(acts[0]) { PerformAllCounts(sel, Perform(sel, w, acts[0]), acts[1..], k); }
    }
  }

  function Held(stack: seq<Bracket>, b: Bracket): nat {
    if stack == [] then 0 else Held(stack[..|stack| - 1], b) + (if stack[|stack| - 1] == b then 1 else 0)
  }

  lemma HeldStep(stack: seq<Bracket>, b: Bracket, top: Bracket)
    ensures Held(stack + [top], b) == Held(stack, b) + (if top == b then 1 else 0)
  {
    assert (stack + [top])[..|stack + [top]| - 1] == stack;
  }

  function OpenKind(b: Bracket): Kind {
    if b == InTest then Start else Window
  }

  function CloseKind(b: Bracket): Kind {
    if b == InTest then Result else WindowClose
  }

  lemma HeldAfter(test: Identity, s: seq<Bracket>, e: Event, b: Bracket)
    requires After(test, Some(s), e).Some?
    ensures Held(After(test, Some(s), e).value, b) + One(IsKind(test, e, CloseKind(b)))
         == Held(s, b) + One(IsKind(test, e, OpenKind(b)))
  {
    if Opens(test, e).Some? { HeldStep(s, b, Opens(test, e).value); }
  }

  /** Balanced events have as many opens as closes, beyond what the stack holds. */
  lemma {:induction false} BalancedCounts(test: Identity, events: seq<Event>, stack: seq<Bracket>, b: Bracket)
    requires Scan(test, events, stack).Some?
    ensures Count(test, events, OpenKind(b)) + Held(stack, b)
         == Count(test, events, CloseKind(b)) + Held(Scan(test, events, stack).value, b)
  {
    if events != [] {
      var before, e := events[..|events| - 1], events[|events| - 1];
      BalancedCounts(test, before, stack, b);
      HeldAfter(test, Scan(test, before, stack).value, e, b);
    }
  }

  // ------------------------------------------------------------------
  // Collected tests

  /** The tests reported as collected, in order. */
  function Reported(events: seq<Event>): seq<Identity> {
    if events == [] then [] else
    var last := events[|events| - 1];
    Reported(events[..|events| - 1]) + (if last.Collected? then [last.test] else [])
  }

  lemma ReportedStep(events: seq<Event>, e: Event)
    ensures Reported(events + [e]) == Reported(events) + (if e.Collected? then [e.test] else [])
  {
    assert (events + [e])[..|events + [e]| - 1] == events;
  }

  predicate IsFirst(ts: seq<Test>, i: nat) {
    i < |ts| && forall j :: 0 <= j < i ==> ts[j].id != ts[i].id
  }

  /** The identities of the tests that are the first with their id. */
  function Firsts(ts: seq<Test>): seq<Identity> {
    if ts == [] then [] else
    var n := |ts| - 1;
    Firsts(ts[..n]) + (if IsFirst(ts, n) then [ts[n].identity] else [])
  }

  function Ids(ts: seq<Test>): set<string> {
    set i | 0 <= i < |ts| :: ts[i].id
  }

  /** The observer's set and reports are those of the tests constructed so far. */
  ghost predicate Collects(w: World, ts: seq<Test>) {
    w.collected == Ids(ts) && Reported(w.events) == Firsts(ts)
  }

  lemma EmitOther(w: World, e: Event, ts: seq<Test>)
    requires Collects(w, ts) && !e.Collected?
    ensures Collects(Emit(w, e), ts)
  {
    ReportedStep(w.events, e);
  }

  lemma CollectOne(w: World, t: Test, ts: seq<Test>)
    requires Collects(w, ts) && t.inSelectedFile
    ensures Collects(Collect(w, t), ts + [t])
  {
    var now := ts + [t];
    var n := |ts|;
    assert now[..n] == ts && now[n] == t;
    assert forall i :: 0 <= i < n ==> now[i] == ts[i];
    assert Ids(now) == Ids(ts) + {t.id} by {
      assert now[n].id in Ids(now);
      assert forall i :: 0 <= i < n ==> now[i].id in Ids(now);
    }
    assert t.id in Ids(ts) <==> !IsFirst(now, n) by {
      if !IsFirst(now, n) {
        var j :| 0 <= j < n && now[j].id == t.id;
        assert ts[j].id in Ids(ts);
      }
    }
    ReportedStep(w.events, Collected(t.identity));
  }

  lemma {:induction false} PerformCollects(sel: Selection, w: World, a: Act, ts: seq<Test>)
    requires Collects(w, ts)
    ensures Collects(Perform(sel, w, a), ts + Constructed(a))
    decreases a, 1
  {
    assert ts + [] == ts;
    match a
    case Construct(t) => if t.inSelectedFile { CollectOne(w, t, ts); }
    case RunTest(t, body, _) =>
      if t.id != sel.id {
        EmitOther(w, TestStart(t.identity), ts);
        PerformAllCollects(sel, Announce(w, t), body, ts);
      } else {
        var started := Emit(w, TestStart(sel.test)).(callbacks := []);
        EmitOther(w, TestStart(sel.test), ts);
        PerformAllCollects(sel, started, body, ts);
        var w1 := PerformAll(sel, started, body);
        EmitOther(w1, ResultOf(sel.test, RecordAll(w1.callbacks)), ts + ConstructedAll(body));
      }
    case CallMethod(t, body, _) =>
      if t.id != sel.id {
        PerformAllCollects(sel, w, body, ts);
      } else {
        var started := Emit(w, WindowStart(sel.test));
        EmitOther(w, WindowStart(sel.test), ts);
        PerformAllCollects(sel, started, body, ts);
        EmitOther(PerformAll(sel, started, body), WindowEnd(sel.test), ts + ConstructedAll(body));
      }
    case ReachProbe(token) => EmitOther(w, Reach(token), ts);
    case _ =>
  }

  lemma {:induction false} PerformAllCollects(sel: Selection, w: World, acts: seq<Act>, ts: seq<Test>)
    requires Collects(w, ts)
    ensures Collects(PerformAll(sel, w, acts), ts + ConstructedAll(acts))
    decreases acts, 0
  {
    assert ts + [] == ts;
    if acts != [] {
      PerformCollects(sel, w, acts[0], ts);
      var here := Constructed(acts[0]);
      assert here + [] == here;
      if !Raises(acts[0]) {
        PerformAllCollects(sel, Perform(sel, w, acts[0]), acts[1..], ts + here);
        ConcatAssoc(ts, here, ConstructedAll(acts[1..]));
      }
    }
  }

  predicate Distinct(ids: seq<Identity>) {
    forall i, j :: 0 <= i < j < |ids| ==> ids[i] != ids[j]
  }

  lemma DistinctStep(ids: seq<Identity>, x: Identity)
    ensures Distinct(ids + [x]) <==> Distinct(ids) && x !in ids
  {
    var more := ids + [x];
    if Distinct(more) {
      forall i, j | 0 <= i < j < |ids| ensures ids[i] != ids[j] { assert more[i] != more[j]; }
      forall i | 0 <= i < |ids| ensures ids[i] != x { assert more[i] != more[|ids|]; }
    }
  }

  lemma FirstsStep(ts: seq<Test>, t: Test)
    ensures Firsts(ts + [t]) == if IsFirst(ts + [t], |ts|) then Firsts(ts) + [t.identity] else Firsts(ts)
  {
    assert (ts + [t])[..|ts|] == ts;
    assert Firsts(ts) + [] == Firsts(ts);
  }

  /** Some test that is the first with its id has this identity. */
  ghost predicate HasFirst(ts: seq<Test>, x: Identity) {
    exists i: nat :: IsFirst(ts, i) && ts[i].identity == x
  }

  lemma FirstKept(ts: seq<Test>, t: Test, i: nat)
    requires i < |ts|
    ensures IsFirst(ts + [t], i) <==> IsFirst(ts, i)
  {
    assert forall j :: 0 <= j <= i ==> (ts + [t])[j] == ts[j];
  }

  lemma HasFirstStep(ts: seq<Test>, t: Test, x: Identity)
    ensures HasFirst(ts + [t], x) <==> HasFirst(ts, x) || (IsFirst(ts + [t], |ts|) && t.identity == x)
  {
    var now := ts + [t];
    if HasFirst(ts, x) {
      var i: nat :| IsFirst(ts, i) && ts[i].identity == x;
      FirstKept(ts, t, i);
      assert now[i].identity == x;
    }
    if HasFirst(now, x) {
      var i: nat :| IsFirst(now, i) && now[i].identity == x;
      if i < |ts| { FirstKept(ts, t, i); }
    }
  }

  lemma FirstsHoldStep(ts: seq<Test>, t: Test, x: Identity)
    requires x in Firsts(ts) <==> HasFirst(ts, x)
    ensures x in Firsts(ts + [t]) <==> HasFirst(ts + [t], x)
  {
    FirstsStep(ts, t);
    HasFirstStep(ts, t, x);
  }

  lemma {:induction false} FirstsHold(ts: seq<Test>, x: Identity)
    ensures x in Firsts(ts) <==> HasFirst(ts, x)
  {
    if ts != [] {
      var before, t := ts[..|ts| - 1], ts[|ts| - 1];
      assert ts == before + [t];
      FirstsHold(before, x);
      FirstsHoldStep(before, t, x);
    }
  }

  /** No two tests that are the first with their id have one identity. */
  ghost predicate FirstsApart(ts: seq<Test>) {
    forall i: nat, j: nat :: i < j && IsFirst(ts, i) && IsFirst(ts, j) ==> ts[i].identity != ts[j].identity
  }

  lemma FirstsApartStep(ts: seq<Test>, t: Test)
    ensures FirstsApart(ts + [t]) <==> FirstsApart(ts) && (IsFirst(ts + [t], |ts|) ==> t.identity !in Firsts(ts))
  {
    var now := ts + [t];
    var n := |ts|;
    forall i: nat | i < n ensures now[i] == ts[i] && (IsFirst(now, i) <==> IsFirst(ts, i)) { FirstKept(ts, t, i); }
    FirstsHold(ts, t.identity);
    if FirstsApart(now) {
      forall i: nat, j: nat | i < j && IsFirst(ts, i) && IsFirst(ts, j) ensures ts[i].identity != ts[j].identity {
        assert IsFirst(now, i) && IsFirst(now, j);
      }
    }
  }

  lemma FirstsDistinctStep(ts: seq<Test>, t: Test)
    requires Distinct(Firsts(ts)) <==> FirstsApart(ts)
    ensures Distinct(Firsts(ts + [t])) <==> FirstsApart(ts + [t])
  {
    FirstsApartStep(ts, t);
    FirstsStep(ts, t);
    DistinctStep(Firsts(ts), t.identity);
  }

  lemma {:induction false} FirstsDistinct(ts: seq<Test>)
    ensures Distinct(Firsts(ts)) <==> FirstsApart(ts)
  {
    if ts != [] {
      var before, t := ts[..|ts| - 1], ts[|ts| - 1];
      assert ts == before + [t];
      FirstsDistinct(before);
      FirstsDistinctStep(before, t);
    }
  }

  /** The reports of a session are the tests constructed first with their id, in order. */
  lemma SessionReports(sel: Selection, script: seq<Act>)
    ensures Reported(Session(sel, script)) == Firsts(ConstructedAll(script))
  {
    var begun := Emit(FRESH, SessionStart);
    assert Ids([]) == {};
    EmitOther(FRESH, SessionStart, []);
    PerformAllCollects(sel, begun, script, []);
    assert [] + ConstructedAll(script) == ConstructedAll(script);
    EmitOther(PerformAll(sel, begun, script), SessionEnd, ConstructedAll(script));
  }

  /**
   Every collected test is reported once if and only if the first tests of two
   different ids never share an identity.
   */
  lemma CollectedOnceExactly(sel: Selection, script: seq<Act>)
    ensures Distinct(Reported(Session(sel, script))) <==> FirstsApart(ConstructedAll(script))
  {
    SessionReports(sel, script);
    FirstsDistinct(ConstructedAll(script));
  }

  /** Tests with one id have one identity. */
  ghost predicate IdFixesIdentity(ts: seq<Test>) {
    forall i, j :: 0 <= i < |ts| && 0 <= j < |ts| && ts[i].id == ts[j].id ==> ts[i].identity == ts[j].identity
  }

  ghost predicate IdentityFixesId(ts: seq<Test>) {
    forall i, j :: 0 <= i < |ts| && 0 <= j < |ts| && ts[i].identity == ts[j].identity ==> ts[i].id == ts[j].id
  }

  lemma {:induction false} FirstWithId(ts: seq<Test>, i: nat) returns (k: nat)
    requires i < |ts|
    ensures k <= i && IsFirst(ts, k) && ts[k].id == ts[i].id
  {
    k := i;
    if !IsFirst(ts, i) {
      var j :| 0 <= j < i && ts[j].id == ts[i].id;
      k := FirstWithId(ts, j);
    }
  }

  /** Where an id stands for one identity: reported once exactly when an identity stands for one id. */
  lemma CollectedOnceByIdentity(sel: Selection, script: seq<Act>)
    requires IdFixesIdentity(ConstructedAll(script))
    ensures Distinct(Reported(Session(sel, script))) <==> IdentityFixesId(ConstructedAll(script))
  {
    var ts := ConstructedAll(script);
    CollectedOnceExactly(sel, script);
    if FirstsApart(ts) {
      forall i, j | 0 <= i < |ts| && 0 <= j < |ts| && ts[i].identity == ts[j].identity
        ensures ts[i].id == ts[j].id
      {
        var a := FirstWithId(ts, i);
        var b := FirstWithId(ts, j);
        assert a == b || (a < b && IsFirst(ts, a) && IsFirst(ts, b)) || (b < a && IsFirst(ts, b) && IsFirst(ts, a));
      }
    }
  }

  /** One test class imported twice under different ids: the same test is reported as collected twice. */
  lemma SameTestCollectedTwice(sel: Selection)
    ensures var script := [Construct(Test("a.C.t", true, ("C", "t"))), Construct(Test("b.C.t", true, ("C", "t")))];
            Session(sel, script) == [SessionStart, Collected(("C", "t")), Collected(("C", "t")), SessionEnd]
  {
    var script := [Construct(Test("a.C.t", true, ("C", "t"))), Construct(Test("b.C.t", true, ("C", "t")))];
    assert "a.C.t"[0] != "b.C.t"[0];
    var begun := Emit(FRESH, SessionStart);
    var one := Perform(sel, begun, script[0]);
    assert script[1..] == [script[1]] && script[1..][1..] == [];
    assert PerformAll(sel, begun, script) == PerformAll(sel, one, script[1..]);
    assert PerformAll(sel, one, script[1..]) == Perform(sel, one, script[1]);
  }

  // ------------------------------------------------------------------
  // The protocol

  /**
   Every session, whatever raises where: session_start first and session_end
   last and nowhere else; one result per selected run and one window per
   selected call; and the selected test's brackets, as the channel shows them,
   are balanced if and only if no other test ran under the selected name.
   */
  lemma SessionProtocol(sel: Selection, script: seq<Act>)
    ensures var events := Session(sel, script);
            && |events| >= 2 && events[0] == SessionStart && events[|events| - 1] == SessionEnd
            && Count(sel.test, events, Kind.Session) == 2
            && Count(sel.test, events, Result) == TallyAll(sel, script, Run)
            && Count(sel.test, events, Start) == TallyAll(sel, script, Run) + TallyAll(sel, script, Namesake)
            && Count(sel.test, events, Window) == Count(sel.test, events, WindowClose) == TallyAll(sel, script, Call)
            && (Scan(sel.test, events, []) == Some([]) <==> TallyAll(sel, script, Namesake) == 0)
  {
    SessionEnds(sel, script);
    SessionCount(sel, script, Kind.Session);
    SessionCount(sel, script, Start);
    SessionCount(sel, script, Result);
    SessionCount(sel, script, Window);
    SessionCount(sel, script, WindowClose);
    var events := Session(sel, script);
    if TallyAll(sel, script, Namesake) == 0 { SessionBrackets(sel, script); }
    if Scan(sel.test, events, []) == Some([]) { BalancedCounts(sel.test, events, [], InTest); }
  }

  lemma SessionEnds(sel: Selection, script: seq<Act>)
    ensures var events := Session(sel, script);
            |events| >= 2 && events[0] == SessionStart && events[|events| - 1] == SessionEnd
  {
    var begun := Emit(FRESH, SessionStart);
    EventsAreAdded(sel, begun, script);
    assert begun.events == [SessionStart];
  }

  lemma SessionBrackets(sel: Selection, script: seq<Act>)
    requires TallyAll(sel, script, Namesake) == 0
    ensures Scan(sel.test, Session(sel, script), []) == Some([])
  {
    var begun := Emit(FRESH, SessionStart);
    PerformAllBalanced(sel, begun, script, []);
    ScanStep(sel.test, [], SessionStart, []);
    assert [] + [SessionStart] == begun.events;
    ScanStep(sel.test, PerformAll(sel, begun, script).events, SessionEnd, []);
  }

  lemma SessionCount(sel: Selection, script: seq<Act>, k: Kind)
    ensures Count(sel.test, Session(sel, script), k) == (if k.Session? then 2 else 0) + DueInAll(sel, script, k)
  {
    var begun := Emit(FRESH, SessionStart);
    CountStep(sel.test, [], SessionStart, k);
    assert [] + [SessionStart] == begun.events;
    PerformAllCounts(sel, begun, script, k);
    CountStep(sel.test, PerformAll(sel, begun, script).events, SessionEnd, k);
  }

  /** A namesake's run leaves a test_start of the selected test without a result. */
  lemma NamesakeLeavesBracketOpen(sel: Selection, id: string)
    requires id != sel.id
    ensures Session(sel, [RunTest(Test(id, true, sel.test), [], false)])
         == [SessionStart, TestStart(sel.test), SessionEnd]
    ensures Scan(sel.test, [SessionStart, TestStart(sel.test), SessionEnd], []) == Some([InTest])
  {
    var a := RunTest(Test(id, true, sel.test), [], false);
    var begun := Emit(FRESH, SessionStart);
    assert PerformAll(sel, begun, [a]) == Perform(sel, begun, a) by { assert [a][1..] == []; }
    assert Perform(sel, begun, a) == Emit(begun, TestStart(sel.test));
    assert begun.events == [SessionStart];
    var one, two := [SessionStart], [SessionStart, TestStart(sel.test)];
    var all := [SessionStart, TestStart(sel.test), SessionEnd];
    assert one[..0] == [] && two[..1] == one && all[..2] == two;
    assert Scan(sel.test, one, []) == Some([]);
    assert Scan(sel.test, two, []) == Some([] + [InTest]) && [] + [InTest] == [InTest];
    assert Scan(sel.test, all, []) == Scan(sel.test, two, []);
  }

  /**
   One run of the selected test, during which neither it nor a namesake runs
   and its method is called at most once: it starts with test_start, ends with
   exactly one test_result even when the body raises, and has at most one
   window inside.
   */
  lemma SelectedRunShape(sel: Selection, w: World, a: Act) returns (inner: seq<Event>)
    requires a.RunTest? && a.test.id == sel.id
    requires TallyAll(sel, a.body, Run) == 0 && TallyAll(sel, a.body, Namesake) == 0 && TallyAll(sel, a.body, Call) <= 1
    ensures && Perform(sel, w, a).events
               == w.events + [TestStart(sel.test)] + inner + [ResultOf(sel.test, RecordAll(CallbacksAll(sel, a.body)))]
            && Count(sel.test, inner, Start) == 0 && Count(sel.test, inner, Result) == 0
            && Count(sel.test, inner, Window) == Count(sel.test, inner, WindowClose) <= 1
            && Scan(sel.test, inner, []) == Some([])
  {
    var started := Emit(w, TestStart(sel.test)).(callbacks := []);
    var bare := World(started.collected, [], []);
    inner := PerformAll(sel, bare, a.body).events;
    EventsAreAdded(sel, started, a.body);
    AllCallbacksReceived(sel, started, a.body);
    assert [] + CallbacksAll(sel, a.body) == CallbacksAll(sel, a.body);
    PerformAllBalanced(sel, bare, a.body, []);
    PerformAllCounts(sel, bare, a.body, Start);
    PerformAllCounts(sel, bare, a.body, Result);
    PerformAllCounts(sel, bare, a.body, Window);
    PerformAllCounts(sel, bare, a.body, WindowClose);
    assert Scan(sel.test, [], []) == Some([]);
  }

  /** However a selected run goes, it ends with the result of the callbacks made during it. */
  lemma SelectedRunReports(sel: Selection, w: World, a: Act)
    requires a.RunTest? && a.test.id == sel.id
    ensures var events := Perform(sel, w, a).events;
            events != [] && events[|events| - 1] == ResultOf(sel.test, RecordAll(CallbacksAll(sel, a.body)))
  {
    var started := Emit(w, TestStart(sel.test)).(callbacks := []);
    AllCallbacksReceived(sel, started, a.body);
    assert [] + CallbacksAll(sel, a.body) == CallbacksAll(sel, a.body);
  }

  /** What a script emits does not depend on what was emitted before. */
  lemma {:induction false} EventsAreAdded(sel: Selection, w: World, acts: seq<Act>)
    ensures var w1, w0 := PerformAll(sel, w, acts), PerformAll(sel, w.(events := []), acts);
            w1 == w0.(events := w.events + w0.events)
    decreases acts, 0
  {
    var bare := w.(events := []);
    if acts == [] {
      assert w.events + [] == w.events;
    } else {
      EventsAreAddedByAct(sel, w, acts[0]);
      var w1, w0 := Perform(sel, w, acts[0]), Perform(sel, bare, acts[0]);
      if !Raises(acts[0]) {
        EventsAreAdded(sel, w1, acts[1..]);
        EventsAreAdded(sel, w0, acts[1..]);
        var more := PerformAll(sel, w0.(events := []), acts[1..]).events;
        assert w1.(events := []) == w0.(events := []);
        ConcatAssoc(w.events, w0.events, more);
      }
    }
  }

  lemma {:induction false} EventsAreAddedByAct(sel: Selection, w: World, a: Act)
    ensures var w1, w0 := Perform(sel, w, a), Perform(sel, w.(events := []), a);
            w1 == w0.(events := w.events + w0.events)
    decreases a, 1
  {
    var bare := w.(events := []);
    match a
    case Construct(t) =>
      assert w.events + [] == w.events;
      assert [] + [Collected(t.identity)] == [Collected(t.identity)];
    case RunTest(t, body, _) => RunEventsAreAdded(sel, w, a);
    case CallMethod(t, body, _) =>
      if t.id != sel.id {
        EventsAreAdded(sel, w, body);
      } else {
        AddedAfter(sel, w, WindowStart(sel.test), body);
        var w0 := PerformAll(sel, Emit(bare, WindowStart(sel.test)), body);
        ConcatAssoc(w.events, w0.events, [WindowEnd(sel.test)]);
      }
    case ReachProbe(token) => assert [] + [Reach(token)] == [Reach(token)];
    case _ => assert w.events + [] == w.events;
  }

  lemma {:induction false} RunEventsAreAdded(sel: Selection, w: World, a: Act)
    requires a.RunTest?
    ensures var w1, w0 := Perform(sel, w, a), Perform(sel, w.(events := []), a);
            w1 == w0.(events := w.events + w0.events)
    decreases a, 0
  {
    var bare := w.(events := []);
    if a.test.id != sel.id {
      if a.test.inSelectedFile {
        AddedAfter(sel, w, TestStart(a.test.identity), a.body);
      } else {
        EventsAreAdded(sel, w, a.body);
      }
    } else {
      var clear := w.(callbacks := []);
      var start := TestStart(sel.test);
      AddedAfter(sel, clear, start, a.body);
      assert Emit(w, start).(callbacks := []) == Emit(clear, start);
      assert Emit(bare, start).(callbacks := []) == Emit(clear.(events := []), start);
      var w0 := PerformAll(sel, Emit(clear.(events := []), start), a.body);
      ConcatAssoc(w.events, w0.events, [ResultOf(sel.test, RecordAll(w0.callbacks))]);
    }
  }

  lemma {:induction false} AddedAfter(sel: Selection, w: World, e: Event, body: seq<Act>)
    ensures var w1, w0 := PerformAll(sel, Emit(w, e), body), PerformAll(sel, Emit(w.(events := []), e), body);
            w1 == w0.(events := w.events + w0.events)
    decreases body, 1
  {
    var bare := w.(events := []);
    EventsAreAdded(sel, Emit(w, e), body);
    EventsAreAdded(sel, Emit(bare, e), body);
    assert Emit(w, e).(events := []) == Emit(bare, e).(events := []) == bare;
    var inner := PerformAll(sel, bare, body).events;
    assert [] + [e] == [e];
    ConcatAssoc(w.events, [e], inner);
  }

  /** The reported result is the fold of the callbacks; a run that reported nothing has failed. */
  lemma ResultMeans(test: Identity, cbs: seq<Callback>)
    ensures var r := ResultOf(test, RecordAll(cbs));
            && r.test == test
            && (r.outcome == Failed <==> AnyFails(cbs) || forall i :: 0 <= i < |cbs| ==> Settles(cbs[i]).None?)
            && (r.outcome != Failed ==> exists i :: 0 <= i < |cbs| && Settles(cbs[i]) == Some(r.outcome))
            && (r.diagnosis.Some? <==> r.outcome == Failed)
            && (r.outcome == Failed && !AnyFails(cbs) ==> r.diagnosis == Some(UnavailableGraph([], None)))
            && (r.assertionFailure <==> r.outcome == Failed && AssertionStands(cbs))
            && forall i: nat :: FirstFailing(cbs, i) ==> r.diagnosis == Some(DiagnosisOf(cbs[i]))
  {
    OutcomeIsFold(cbs);
    AssertionFlagIsFold(cbs);
    forall i: nat | FirstFailing(cbs, i)
      ensures RecordAll(cbs).diagnostic == Some(DiagnosisOf(cbs[i]))
    {
      FirstDiagnosisWins(cbs, i);
    }
    if !AnyFails(cbs) {
      if forall i :: 0 <= i < |cbs| ==> Settles(cbs[i]).None? {
        NothingSettled(cbs);
      } else {
        var i := FirstSettlingIndex(cbs);
        FirstOutcomeWins(cbs, i);
      }
    }
  }

  lemma {:induction false} FirstSettlingIndex(cbs: seq<Callback>) returns (i: nat)
    requires exists j :: 0 <= j < |cbs| && Settles(cbs[j]).Some?
    ensures FirstSettling(cbs, i)
  {
    i := 0;
    while Settles(cbs[i]).None?
      invariant i < |cbs| && forall j :: 0 <= j < i ==> Settles(cbs[j]).None?
      decreases |cbs| - i
    {
      i := i + 1;
    }
  }
}
