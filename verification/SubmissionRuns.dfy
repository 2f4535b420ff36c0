/** Every run of one execution up to its first terminal evidence: claims, submissions,
    lost dispatches and observations in any order. */
module SubmissionRuns {
  import opened Basics
  import opened Domain
  import opened Provisioning
  import opened Submission

  /** The execution, its current attempt, the first finish, and how often the backend was asked. */
  datatype Work = Work(execution: Execution, attempt: Attempt, finish: Option<Finish>, submissions: nat)

  datatype Happening =
    | Claimed
    | Submitted(submission: Observation, error: Option<string>, detail: string, at: Time)
    | NotAttempted
    | DispatchLost(why: ExecutionFailure)
    | DispatchExpired(redeliver: bool)
    | Observed(observation: Observation, at: Time)

  function NewAttempt(x: Execution): Attempt {
    Attempt(x.intent.operationID, x.currentAttempt, SubPending, ZERO_TIME, None)
  }

  function Restarted(w: Work): Work {
    w.(execution := w.execution.(state := AttemptPending),
       attempt := w.attempt.(state := SubPending, resolvedAt := ZERO_TIME, failure := None))
  }

  /** The submission call happens between a claim and its result; a happening that
      does not apply leaves the work alone. Submission results and observations are
      taken in any state, which only adds runs. */
  function Next(w: Work, h: Happening): Work {
    if w.finish.Some? then w
    else match h
      case Claimed =>
        if w.execution.state.AttemptPending? then
          w.(execution := w.execution.(state := AttemptDispatching), attempt := w.attempt.(state := SubLeased),
             submissions := w.submissions + 1)
        else w
      case Submitted(s, error, detail, at) =>
        var r := InterpretSubmission(w.execution, w.attempt, s, error, detail, at);
        w.(execution := r.execution, attempt := r.attempt, finish := r.finish)
      case NotAttempted => if w.execution.state.AttemptDispatching? then Restarted(w) else w
      case DispatchLost(why) =>
        if w.execution.state.AttemptDispatching? then
          w.(execution := w.execution.(state := AttemptUnknown, correlation := CorrUnknown, lastFailure := Some(why)),
             attempt := w.attempt.(state := SubUnknown, failure := Some(why)))
        else w
      case DispatchExpired(redeliver) =>
        if !w.execution.state.AttemptDispatching? then w
        else if redeliver then Restarted(w)
        else w.(execution := w.execution.(state := AttemptUnknown, correlation := CorrUnknown), attempt := w.attempt.(state := SubUnknown))
      case Observed(o, at) =>
        var r := InterpretObservation(w.execution, w.attempt, o, at);
        if r.Err? then w
        else if r.value.outcome.Retry? then w.(execution := r.value.execution, attempt := NewAttempt(r.value.execution))
        else w.(execution := r.value.execution, attempt := r.value.attempt, finish := r.value.finish)
  }

  function Play(w: Work, hs: seq<Happening>): Work
    decreases |hs|
  {
    if hs == [] then w else Play(Next(w, hs[0]), hs[1..])
  }

  /** An attempt as the worker first claims it. */
  predicate Unstarted(w: Work) {
    w.execution.state.AttemptPending? && !w.execution.acceptanceConfirmed && w.finish.None? &&
    w.attempt == NewAttempt(w.execution)
  }

  /** Acceptance rules out any state from which the backend could be asked again, and
      only terminal evidence settles an execution. */
  predicate Sane(w: Work) {
    && (w.execution.acceptanceConfirmed ==> !w.execution.state.AttemptPending? && !w.execution.state.AttemptDispatching?)
    && (w.finish.Some? <==> w.execution.IsSettled())
    && w.attempt.number == w.execution.currentAttempt
  }

  /** Whether the happening reports that the backend never saw the attempt. */
  predicate Retries(w: Work, h: Happening) {
    w.finish.None? && h.Observed? &&
    var r := InterpretObservation(w.execution, w.attempt, h.observation, h.at);
    r.Ok? && r.value.outcome.Retry?
  }

  function CountRetries(w: Work, hs: seq<Happening>): nat
    decreases |hs|
  {
    hide Next, Retries;
    if hs == [] then 0 else (if Retries(w, hs[0]) then 1 else 0) + CountRetries(Next(w, hs[0]), hs[1..])
  }

  /** The last word of the backend about the execution. */
  predicate SaysRejected(x: Execution) {
    x.lastObservation.Some? && x.lastObservation.value.correlation.CorrNotFound? &&
    x.lastObservation.value.execution.Some? && x.lastObservation.value.execution.value.state.BackendFailed?
  }

  predicate SaysSucceeded(x: Execution) {
    x.lastObservation.Some? && x.lastObservation.value.correlation.CorrFound? &&
    x.lastObservation.value.execution.Some? && x.lastObservation.value.execution.value.state.BackendSucceeded?
  }

  predicate SaysAbsent(x: Execution) {
    x.lastObservation.Some? &&
    ConclusiveManagedAbsence(x.intent.capability, x.lastObservation.value.correlation, x.lastObservation.value.execution, false)
  }

  lemma SubmissionKeeps(x: Execution, a: Attempt, s: Observation, error: Option<string>, detail: string, at: Time)
    requires !x.IsSettled()
    ensures var r := InterpretSubmission(x, a, s, error, detail, at);
            var y := r.execution;
            && y.intent == x.intent && y.currentAttempt == x.currentAttempt && r.attempt.number == a.number
            && x.lastProviderObservedAt <= y.lastProviderObservedAt
            && !y.state.AttemptPending? && !y.state.AttemptDispatching?
            && (r.finish.Some? <==> y.IsSettled())
  {
    hide StaleFailure, UncorrelatedFailure, MalformedFailure, FailureFrom, FactsAcceptable, EvidenceFresh, Classify,
         SubmissionSucceeded, ManagedTargetAbsent;
  }

  /** What reading a submission can do to an unsettled execution. */
  lemma SubmissionEffects(x: Execution, a: Attempt, s: Observation, error: Option<string>, detail: string, at: Time)
    requires !x.IsSettled()
    ensures var r := InterpretSubmission(x, a, s, error, detail, at);
            var y := r.execution;
            && y.intent == x.intent && y.currentAttempt == x.currentAttempt && r.attempt.number == a.number
            && x.lastProviderObservedAt <= y.lastProviderObservedAt
            && !y.state.AttemptPending? && !y.state.AttemptDispatching?
            && (r.finish.Some? <==> y.IsSettled())
            && (x.acceptanceConfirmed && !y.acceptanceConfirmed ==> r.finish.Some? && !r.finish.value.succeeded && SaysRejected(y))
            && (r.finish.Some? && r.finish.value.succeeded ==>
                  SaysSucceeded(y) || (SaysAbsent(y) && !x.acceptanceConfirmed && !y.acceptanceConfirmed))
  {
    hide StaleFailure, UncorrelatedFailure, MalformedFailure, FailureFrom, FactsAcceptable, EvidenceFresh, AcceptProvider,
         SubmissionSucceeded, ManagedTargetAbsent;
    SubmissionKeeps(x, a, s, error, detail, at);
  }

  /** What reading an observation can do to an unsettled execution. */
  lemma ObservationEffects(x: Execution, a: Attempt, o: Observation, at: Time)
    requires !x.IsSettled() && InterpretObservation(x, a, o, at).Ok?
    ensures var r := InterpretObservation(x, a, o, at).value;
            var y := r.execution;
            && y.intent == x.intent && r.attempt.number == a.number
            && y.currentAttempt == x.currentAttempt + (if r.outcome.Retry? then 1 else 0)
            && x.lastProviderObservedAt <= y.lastProviderObservedAt
            && (r.outcome.Retry? ==> !x.acceptanceConfirmed && !y.acceptanceConfirmed && y.state.AttemptPending? && r.finish.None?)
            && (r.outcome.Stale? ==> y == x && r.attempt == a && r.finish.None?)
            && (!r.outcome.Retry? && !r.outcome.Stale? ==> !y.state.AttemptPending? && !y.state.AttemptDispatching?)
            && (r.finish.Some? <==> y.IsSettled())
            && (x.acceptanceConfirmed && !y.acceptanceConfirmed ==> r.finish.Some? && !r.finish.value.succeeded && SaysRejected(y))
            && (r.finish.Some? && r.finish.value.succeeded ==> SaysSucceeded(y))
  {
    hide StaleFailure, UncorrelatedFailure, MalformedFailure, FailureFrom, FactsAcceptable;
  }

  lemma NextIsSane(w: Work, h: Happening)
    requires Sane(w) && w.finish.None?
    ensures Sane(Next(w, h))
    ensures w.execution.acceptanceConfirmed ==>
              var n := Next(w, h);
              && (n.execution.acceptanceConfirmed || (n.finish.Some? && !n.finish.value.succeeded && SaysRejected(n.execution)))
              && n.submissions == w.submissions
              && n.execution.currentAttempt == w.execution.currentAttempt
  {
    hide InterpretSubmission, InterpretObservation, SaysRejected, SaysSucceeded, SaysAbsent;
    match h
    case Submitted(s, error, detail, at) => SubmissionEffects(w.execution, w.attempt, s, error, detail, at);
    case Observed(o, at) =>
      if InterpretObservation(w.execution, w.attempt, o, at).Ok? {
        ObservationEffects(w.execution, w.attempt, o, at);
      }
    case _ =>
  }

  lemma NextCountsAttempts(w: Work, h: Happening)
    requires Sane(w)
    ensures var n := Next(w, h);
            && n.execution.currentAttempt == w.execution.currentAttempt + (if Retries(w, h) then 1 else 0)
            && (Retries(w, h) ==> !w.execution.acceptanceConfirmed && n.execution.state.AttemptPending?)
            && w.execution.lastProviderObservedAt <= n.execution.lastProviderObservedAt
            && n.execution.intent == w.execution.intent
  {
    hide InterpretSubmission, InterpretObservation, SaysRejected, SaysSucceeded, SaysAbsent;
    if w.finish.None? {
      match h
      case Submitted(s, error, detail, at) => SubmissionEffects(w.execution, w.attempt, s, error, detail, at);
      case Observed(o, at) =>
        if InterpretObservation(w.execution, w.attempt, o, at).Ok? {
          ObservationEffects(w.execution, w.attempt, o, at);
        }
      case _ =>
    }
  }

  lemma NextFinishes(w: Work, h: Happening)
    requires Sane(w) && w.finish.None? && Next(w, h).finish.Some? && Next(w, h).finish.value.succeeded
    ensures || SaysSucceeded(Next(w, h).execution)
            || (SaysAbsent(Next(w, h).execution) && !w.execution.acceptanceConfirmed && !Next(w, h).execution.acceptanceConfirmed)
  {
    hide InterpretSubmission, InterpretObservation, SaysRejected, SaysSucceeded, SaysAbsent;
    match h
    case Submitted(s, error, detail, at) => SubmissionEffects(w.execution, w.attempt, s, error, detail, at);
    case Observed(o, at) => ObservationEffects(w.execution, w.attempt, o, at);
    case _ =>
  }

  /** A stale observation returns its records unchanged. */
  lemma StaleChangesNothing(x: Execution, a: Attempt, o: Observation, at: Time)
    requires ObservationStale(x, o, at) && !(o.correlation.CorrNotFound? && o.execution.Some? && !o.execution.value.state.BackendFailed?)
    ensures InterpretObservation(x, a, o, at) == Ok(Reading(x, a, Stale, None))
    ensures AcceptProvider(x.lastProviderObservedAt, o.observedAt) == x.lastProviderObservedAt
  {
  }

  /** Up to the first finish: numbering follows the retries exactly, backend evidence
      time never goes back, and an execution is settled exactly when it finished. */
  lemma {:induction false} EveryRun(w: Work, hs: seq<Happening>)
    requires Sane(w)
    ensures var n := Play(w, hs);
            && Sane(n)
            && n.execution.currentAttempt == w.execution.currentAttempt + CountRetries(w, hs)
            && w.execution.lastProviderObservedAt <= n.execution.lastProviderObservedAt
            && n.execution.intent == w.execution.intent
    decreases |hs|
  {
    hide Next, Retries;
    if hs != [] {
      NextCountsAttempts(w, hs[0]);
      if w.finish.None? {
        NextIsSane(w, hs[0]);
      } else {
        FinishedStays(w, hs[0]);
      }
      EveryRun(Next(w, hs[0]), hs[1..]);
    }
  }

  lemma FinishedStays(w: Work, h: Happening)
    requires w.finish.Some?
    ensures Next(w, h) == w
  {
  }

  /** Once the backend has accepted an attempt, it is never asked again and no further
      attempt is opened, whatever happens; acceptance itself only ends with a
      correlated rejection that finishes the run as failed. */
  lemma {:induction false} NoResubmissionAfterAcceptance(w: Work, hs: seq<Happening>)
    requires Sane(w) && (w.finish.None? ==> w.execution.acceptanceConfirmed)
    ensures var n := Play(w, hs);
            && n.submissions == w.submissions
            && n.execution.currentAttempt == w.execution.currentAttempt
            && (w.finish.None? ==>
                  n.execution.acceptanceConfirmed || (n.finish.Some? && !n.finish.value.succeeded && SaysRejected(n.execution)))
    decreases |hs|
  {
    hide Next, SaysRejected;
    if hs != [] {
      if w.finish.None? {
        NextIsSane(w, hs[0]);
        if Next(w, hs[0]).finish.Some? {
          FinishedRun(Next(w, hs[0]), hs[1..]);
        }
      } else {
        FinishedStays(w, hs[0]);
      }
      NoResubmissionAfterAcceptance(Next(w, hs[0]), hs[1..]);
    }
  }

  lemma {:induction false} FinishedRun(w: Work, hs: seq<Happening>)
    requires w.finish.Some?
    ensures Play(w, hs) == w
    decreases |hs|
  {
    hide InterpretSubmission, InterpretObservation;
    if hs != [] {
      FinishedRun(w, hs[1..]);
    }
  }

  /** Acceptance is confirmed in no state of the run. */
  predicate NeverAccepted(w: Work, hs: seq<Happening>)
    decreases |hs|
  {
    hide Next;
    !w.execution.acceptanceConfirmed && (hs != [] ==> NeverAccepted(Next(w, hs[0]), hs[1..]))
  }

  lemma {:induction false} FinishedUnaccepted(w: Work, hs: seq<Happening>)
    requires w.finish.Some? && !w.execution.acceptanceConfirmed
    ensures NeverAccepted(w, hs)
    decreases |hs|
  {
    hide Next;
    if hs != [] {
      FinishedStays(w, hs[0]);
      FinishedUnaccepted(w, hs[1..]);
    }
  }

  /** A run that finishes in success saw its execution positively correlated and
      succeeded, or is a delete that was never accepted at any point of the run and
      whose target is conclusively absent. */
  lemma {:induction false} SuccessNeedsCorrelation(w: Work, hs: seq<Happening>)
    requires Sane(w) && w.finish.None?
    requires Play(w, hs).finish.Some? && Play(w, hs).finish.value.succeeded
    ensures SaysSucceeded(Play(w, hs).execution) || (SaysAbsent(Play(w, hs).execution) && NeverAccepted(w, hs))
    decreases |hs|
  {
    hide Next, SaysSucceeded, SaysAbsent, SaysRejected;
    var n := Next(w, hs[0]);
    NextIsSane(w, hs[0]);
    if n.finish.Some? {
      FinishedRun(n, hs[1..]);
      NextFinishes(w, hs[0]);
      if !SaysSucceeded(n.execution) {
        FinishedUnaccepted(n, hs[1..]);
      }
    } else {
      SuccessNeedsCorrelation(n, hs[1..]);
    }
  }
}
