/** The result object the observer hands to the selected test, and what its callbacks add up to. */
module Recording {
  import opened Common
  import opened ValueEncoding
  import opened Budget

  datatype Outcome = Passed | Skipped | Failed

  /** One unittest result callback; failing ones carry the diagnosis their error would have. */
  datatype Callback =
    | AddSuccess
    | AddExpectedFailure
    | AddSkip
    | AddFailure(diagnosis: Graph)
    | AddError(diagnosis: Graph)
    | AddUnexpectedSuccess
    | AddSubTestPass
    | AddSubTestFailure(diagnosis: Graph, isAssertion: bool)
    | Forwarded(name: string)  // anything else

  const UNEXPECTED_SUCCESS := UnavailableGraph([], Some(MakeOrigin(Condition, Some("unexpected_success"))))

  class RecordingResult {
    var outcome: Option<Outcome>
    var assertion: bool
    var diagnostic: Option<Graph>
    var inner: seq<Callback>  // what the runner's own result has received

    constructor ()
      ensures Now() == NOTHING && inner == []
    {
      outcome, assertion, diagnostic, inner := None, false, None, [];
    }

    ghost function Now(): Recorded
      reads this
    {
      Recorded(outcome, assertion, diagnostic)
    }

    method SetFailed(diagnosis: Graph, isAssertion: bool)
      modifies this`outcome, this`assertion, this`diagnostic
      ensures Now() == FailedWith(old(Now()), diagnosis, isAssertion)
    {
      outcome := Some(Failed);
      assertion := assertion || isAssertion;
      if diagnostic.None? {
        diagnostic := Some(diagnosis);
      }
    }

    method SetIfNone(o: Outcome)
      modifies this`outcome
      ensures outcome == if old(outcome).None? then Some(o) else old(outcome)
    {
      if outcome.None? {
        outcome := Some(o);
      }
    }

    /** One case per callback; every one is passed on. */
    method Receive(cb: Callback)
      modifies this
      ensures Now() == Record(old(Now()), cb)
      ensures inner == old(inner) + [cb]
      ensures old(Now()) == RecordAll(old(inner)) ==> Now() == RecordAll(inner)
    {
      assert (inner + [cb])[..|inner|] == inner;
      match cb {
        case AddSuccess => SetIfNone(Passed);
        case AddExpectedFailure => SetIfNone(Passed);
        case AddSkip => SetIfNone(Skipped);
        case AddFailure(d) => SetFailed(d, true);
        case AddError(d) =>
          SetFailed(d, false);
          assertion := false;
        case AddUnexpectedSuccess => SetFailed(UNEXPECTED_SUCCESS, false);
        case AddSubTestPass =>
        case AddSubTestFailure(d, isAssertion) => SetFailed(d, isAssertion);
        case Forwarded(_) =>
      }
      inner := inner + [cb];
    }
  }

  // ------------------------------------------------------------------
  // The fold of a callback sequence

  datatype Recorded = Recorded(outcome: Option<Outcome>, assertion: bool, diagnostic: Option<Graph>)

  const NOTHING := Recorded(None, false, None)

  function FailedWith(r: Recorded, diagnosis: Graph, isAssertion: bool): Recorded {
    Recorded(Some(Failed), r.assertion || isAssertion, if r.diagnostic.None? then Some(diagnosis) else r.diagnostic)
  }

  function Settled(r: Recorded, o: Outcome): Recorded {
    if r.outcome.None? then r.(outcome := Some(o)) else r
  }

  function Record(r: Recorded, cb: Callback): Recorded {
    match cb
    case AddSuccess => Settled(r, Passed)
    case AddExpectedFailure => Settled(r, Passed)
    case AddSkip => Settled(r, Skipped)
    case AddFailure(d) => FailedWith(r, d, true)
    case AddError(d) => FailedWith(r, d, false).(assertion := false)
    case AddUnexpectedSuccess => FailedWith(r, UNEXPECTED_SUCCESS, false)
    case AddSubTestPass => r
    case AddSubTestFailure(d, isAssertion) => FailedWith(r, d, isAssertion)
    case Forwarded(_) => r
  }

  function RecordAll(cbs: seq<Callback>): Recorded {
    if cbs == [] then NOTHING else Record(RecordAll(cbs[..|cbs| - 1]), cbs[|cbs| - 1])
  }

  // ------------------------------------------------------------------
  // What the fold means

  predicate Fails(cb: Callback) {
    cb.AddFailure? || cb.AddError? || cb.AddUnexpectedSuccess? || cb.AddSubTestFailure?
  }

  function DiagnosisOf(cb: Callback): Graph
    requires Fails(cb)
  {
    if cb.AddUnexpectedSuccess? then UNEXPECTED_SUCCESS else cb.diagnosis
  }

  predicate AssertionType(cb: Callback) {
    cb.AddFailure? || (cb.AddSubTestFailure? && cb.isAssertion)
  }

  /** The outcome a callback that does not fail would settle. */
  function Settles(cb: Callback): Option<Outcome> {
    if cb.AddSuccess? || cb.AddExpectedFailure? then Some(Passed) else if cb.AddSkip? then Some(Skipped) else None
  }

  ghost predicate FirstFailing(cbs: seq<Callback>, i: nat) {
    i < |cbs| && Fails(cbs[i]) && forall j :: 0 <= j < i ==> !Fails(cbs[j])
  }

  ghost predicate FirstSettling(cbs: seq<Callback>, i: nat) {
    i < |cbs| && Settles(cbs[i]).Some? && forall j :: 0 <= j < i ==> Settles(cbs[j]).None?
  }

  ghost predicate AnyFails(cbs: seq<Callback>) {
    exists i :: 0 <= i < |cbs| && Fails(cbs[i])
  }

  /** An assertion-type failure that no later addError follows. */
  ghost predicate AssertionStands(cbs: seq<Callback>) {
    exists i :: 0 <= i < |cbs| && AssertionType(cbs[i]) && forall j :: i < j < |cbs| ==> !cbs[j].AddError?
  }

  /** An unexpected success has no exception: its diagnosis is unavailable and names the condition. */
  lemma UnexpectedSuccessDiagnosed()
    ensures DiagnosisOf(AddUnexpectedSuccess)
         == Graph(NotCaptured, None, [], [], [Issue(WholeError, ErrorNotSupplied)],
                  Some(Origin(Condition, Some("unexpected_success"))))
  {
    assert |"unexpected_success"| > 0;
  }

  lemma {:induction false} OutcomeIsFold(cbs: seq<Callback>)
    ensures RecordAll(cbs).outcome == Some(Failed) <==> AnyFails(cbs)
    ensures RecordAll(cbs).diagnostic.Some? <==> AnyFails(cbs)
    ensures RecordAll(cbs).outcome.None? ==> forall i :: 0 <= i < |cbs| ==> !Fails(cbs[i]) && Settles(cbs[i]).None?
  {
    if cbs != [] {
      var n := |cbs| - 1;
      OutcomeIsFold(cbs[..n]);
      if AnyFails(cbs[..n]) {
        var i :| 0 <= i < n && Fails(cbs[..n][i]);
        assert Fails(cbs[i]);
      }
      assert forall i :: 0 <= i < n ==> cbs[..n][i] == cbs[i];
      assert AnyFails(cbs) <==> AnyFails(cbs[..n]) || Fails(cbs[n]);
    }
  }

  /** Without a failure, the first callback that settles an outcome decides. */
  lemma {:induction false} FirstOutcomeWins(cbs: seq<Callback>, i: nat)
    requires !AnyFails(cbs) && FirstSettling(cbs, i)
    ensures RecordAll(cbs).outcome == Settles(cbs[i])
  {
    var n := |cbs| - 1;
    assert forall j :: 0 <= j < n ==> cbs[..n][j] == cbs[j];
    assert !Fails(cbs[n]);
    assert !AnyFails(cbs[..n]);
    if i < n {
      FirstOutcomeWins(cbs[..n], i);
    } else {
      NothingSettled(cbs[..n]);
    }
  }

  lemma {:induction false} NothingSettled(cbs: seq<Callback>)
    requires forall j :: 0 <= j < |cbs| ==> !Fails(cbs[j]) && Settles(cbs[j]).None?
    ensures RecordAll(cbs) == NOTHING
  {
    if cbs != [] { NothingSettled(cbs[..|cbs| - 1]); }
  }

  /** The diagnosis is that of the first failing callback. */
  lemma {:induction false} FirstDiagnosisWins(cbs: seq<Callback>, i: nat)
    requires FirstFailing(cbs, i)
    ensures RecordAll(cbs).diagnostic == Some(DiagnosisOf(cbs[i]))
  {
    var n := |cbs| - 1;
    assert forall j :: 0 <= j < n ==> cbs[..n][j] == cbs[j];
    if i < n {
      FirstDiagnosisWins(cbs[..n], i);
    } else {
      OutcomeIsFold(cbs[..n]);
      assert !AnyFails(cbs[..n]);
    }
  }

  lemma StandsStep(cbs: seq<Callback>, cb: Callback)
    ensures AssertionStands(cbs + [cb]) <==> AssertionType(cb) || (AssertionStands(cbs) && !cb.AddError?)
  {
    var all := cbs + [cb];
    if AssertionType(cb) {
      assert AssertionType(all[|cbs|]);
    } else if AssertionStands(cbs) && !cb.AddError? {
      var i :| 0 <= i < |cbs| && AssertionType(cbs[i]) && forall j :: i < j < |cbs| ==> !cbs[j].AddError?;
      assert AssertionType(all[i]);
    } else if AssertionStands(all) {
      var i :| 0 <= i < |all| && AssertionType(all[i]) && forall j :: i < j < |all| ==> !all[j].AddError?;
      assert i < |cbs| && AssertionType(cbs[i]);
      assert !all[|cbs|].AddError?;
      forall j | i < j < |cbs| ensures !cbs[j].AddError? { assert !all[j].AddError?; }
    }
  }

  /** The assertion flag holds exactly when an assertion-type failure follows the last addError. */
  lemma {:induction false} AssertionFlagIsFold(cbs: seq<Callback>)
    ensures RecordAll(cbs).assertion <==> AssertionStands(cbs)
  {
    if cbs != [] {
      var before, cb := cbs[..|cbs| - 1], cbs[|cbs| - 1];
      AssertionFlagIsFold(before);
      StandsStep(before, cb);
      assert cbs == before + [cb];
    }
  }
}
