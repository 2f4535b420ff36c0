/** The interpretation as the source performs it: the records are assigned field by
    field along one path of tests. Each method is proved against the reading that
    `Submission` decides by classification. */
module SubmissionCode {
  import opened Basics
  import opened Domain
  import opened Provisioning
  import S = Submission

  method ExecutionFailureFrom(error: Option<string>, e: Option<BackendExecution>) returns (f: ExecutionFailure)
    ensures f == S.FailureFrom(error, e)
  {
    if e.Some? && e.value.failure.Some? {
      f := e.value.failure.value;
      if f.reason == "" {
        f := f.(reason := S.DefaultFailureReason());
      }
      return;
    }
    var message := S.AmbiguousMessage();
    if error.Some? {
      message := error.value;
    }
    f := ExecutionFailure(KindUnknown, S.AmbiguousReason(), message);
  }

  method AcceptProviderEvidence(x: Execution, at: Time) returns (y: Execution)
    ensures y == x.(lastProviderObservedAt := S.AcceptProvider(x.lastProviderObservedAt, at))
  {
    y := x;
    if at == ZERO_TIME {
      return;
    }
    if x.lastProviderObservedAt < at {
      y := y.(lastProviderObservedAt := at);
    }
  }

  method InterpretSubmission(x: Execution, a: Attempt, submitted: Observation, error: Option<string>, detail: string, at: Time)
    returns (execution: Execution, attempt: Attempt, outcome: S.SubmissionOutcome, finish: Option<Finish>)
    ensures S.Reading(execution, attempt, outcome, finish) == S.InterpretSubmission(x, a, submitted, error, detail, at)
  {
    hide S.ClassifyUsable, S.Settle, S.Recorded, S.ProviderStale, S.FactsAcceptable;
    execution, attempt, finish := x, a, None;
    var submission := submitted;
    if submission.execution.Some? && S.ProviderStale(execution, submission.observedAt) {
      execution := execution.(state := AttemptUnknown, correlation := CorrUnknown, lastFailure := Some(S.StaleFailure()));
      attempt := attempt.(state := SubUnknown, failure := execution.lastFailure);
      outcome := S.Ambiguous;
      return;
    }
    if !S.FactsAcceptable(submission.facts) {
      if S.TerminalBackend(submission.execution) {
        submission := submission.(facts := NO_FACTS);
      } else {
        execution := execution.(state := AttemptUnknown, correlation := CorrUnknown, lastFailure := Some(S.MalformedFailure(detail)));
        attempt := attempt.(state := SubUnknown, failure := execution.lastFailure);
        outcome := S.Ambiguous;
        return;
      }
    }
    FactsDoNotClassify(x, submitted, error);
    execution := RecordSubmission(execution, submission, at);
    execution, attempt, outcome, finish := SettleSubmission(x, execution, attempt, submission, error, at);
  }

  lemma FactsDoNotClassify(x: Execution, o: Observation, error: Option<string>)
    ensures S.ClassifyUsable(x, S.WithoutMalformedFacts(o), error) == S.ClassifyUsable(x, o, error)
    ensures !S.ClassifyUsable(x, o, error).StaleSubmission? && !S.ClassifyUsable(x, o, error).MalformedSubmission?
  {
  }

  /** The tests that follow the bookkeeping, on the recorded execution. */
  method SettleSubmission(x: Execution, recorded: Execution, a: Attempt, submission: Observation, error: Option<string>, at: Time)
    returns (execution: Execution, attempt: Attempt, outcome: S.SubmissionOutcome, finish: Option<Finish>)
    requires recorded == S.Recorded(x, submission, at)
    ensures S.Reading(execution, attempt, outcome, finish) ==
            S.Settle(S.ClassifyUsable(x, submission, error), recorded, a, submission, error, at)
  {
    hide S.FailureFrom;
    execution, attempt, finish := recorded, a, None;
    var backend := submission.execution;
    var terminalEvidence := S.TerminalBackend(backend);
    var validState := backend.Some? && !backend.value.state.BackendInvalid?;
    var preflightRejected := validState && backend.value.state.BackendFailed? && backend.value.failure.Some? && submission.correlation.CorrNotFound?;
    var acceptedRequest := validState && submission.correlation.CorrFound?;
    if (error.Some? && !terminalEvidence) || !validState || backend.value.state.BackendUnknown? || (!preflightRejected && !acceptedRequest) {
      execution := execution.(state := AttemptUnknown);
      if submission.correlation.CorrFound? {
        execution := execution.(acceptanceConfirmed := true);
      }
      var why := ExecutionFailureFrom(error, backend);
      execution := execution.(lastFailure := Some(why));
      attempt := attempt.(state := SubUnknown, failure := Some(why));
      outcome := S.Ambiguous;
      return;
    }
    var failure := ExecutionFailureFrom(None, backend);
    attempt := attempt.(resolvedAt := at);
    if preflightRejected {
      attempt := attempt.(state := SubRejected, failure := Some(failure));
      if S.ConclusiveManagedAbsence(execution.intent.capability, CorrNotFound, backend, execution.acceptanceConfirmed) {
        execution := execution.(correlation := CorrNotFound, acceptanceConfirmed := false, state := AttemptSucceeded);
        outcome := S.Succeeded;
        finish := Some(Finish(true, S.ManagedTargetAbsent(), "", S.ABSENT_FACTS));
        return;
      }
      execution := execution.(correlation := CorrNotFound, acceptanceConfirmed := false);
    } else {
      attempt := attempt.(state := SubAccepted);
      execution := execution.(correlation := CorrFound, acceptanceConfirmed := true);
    }
    match backend.value.state {
      case BackendAccepted | BackendRunning =>
        execution := execution.(state := AttemptAccepted);
        outcome := S.Accepted;
      case BackendSucceeded =>
        execution := execution.(state := AttemptSucceeded);
        outcome := S.Succeeded;
        finish := Some(Finish(true, S.SubmissionSucceeded(), "", submission.facts));
      case _ =>
        execution := execution.(state := AttemptFailed, lastFailure := Some(failure));
        outcome := S.Failed;
        finish := Some(Finish(false, failure.reason, failure.message, submission.facts));
    }
  }

  method RecordSubmission(x: Execution, submission: Observation, at: Time) returns (execution: Execution)
    ensures execution == S.Recorded(x, submission, at)
  {
    execution := x.(submission := Some(submission));
    execution := execution.(lastObservation := Some(submission));
    execution := execution.(correlation := submission.correlation);
    if execution.correlation.CorrInvalid? {
      execution := execution.(correlation := CorrUnknown);
    }
    if submission.execution.Some? && submission.execution.value.handle.Some? {
      execution := execution.(handle := submission.execution.value.handle);
    }
    if submission.execution.Some? && S.EvidenceFresh(execution.lastObservedAt, at) {
      execution := execution.(lastObservedAt := at);
    }
    execution := AcceptProviderEvidence(execution, submission.observedAt);
  }

  method InterpretObservation(x: Execution, a: Attempt, observed: Observation, at: Time)
    returns (r: Result<S.Reading<S.ObservationOutcome>, S.EvidenceError>)
    ensures r == S.InterpretObservation(x, a, observed, at)
  {
    hide S.StaleFailure, S.UncorrelatedFailure, S.FailureFrom, S.FactsAcceptable;
    var execution, attempt, observation := x, a, observed;
    var backend := observation.execution;
    if observation.correlation.CorrNotFound? && backend.Some? && !backend.value.state.BackendFailed? {
      return Err(S.Contradictory);
    }
    var stale := S.ProviderStale(execution, observation.observedAt);
    if observation.observedAt == ZERO_TIME && execution.lastObservedAt != ZERO_TIME && at <= execution.lastObservedAt {
      stale := true;
    }
    execution := AcceptProviderEvidence(execution, observation.observedAt);
    if stale {
      return Ok(S.Reading(execution, attempt, S.Stale, None));
    }
    if !S.FactsAcceptable(observation.facts) {
      if S.TerminalBackend(backend) {
        observation := observation.(facts := NO_FACTS);
      } else {
        return Err(S.MalformedFacts);
      }
    }
    execution := execution.(lastObservation := Some(observation), lastObservedAt := at, correlation := observation.correlation);
    if observation.correlation.CorrNotFound? && backend.Some? && backend.value.state.BackendFailed? {
      var failure := ExecutionFailureFrom(None, backend);
      execution := execution.(state := AttemptFailed, acceptanceConfirmed := false, lastFailure := Some(failure));
      attempt := attempt.(state := SubRejected, failure := Some(failure), resolvedAt := at);
      return Ok(S.Reading(execution, attempt, S.Rejected, Some(Finish(false, failure.reason, failure.message, observation.facts))));
    }
    if observation.correlation.CorrNotFound? && execution.state.AttemptUnknown? && !execution.acceptanceConfirmed {
      attempt := attempt.(state := SubNotFound, resolvedAt := at);
      execution := execution.(currentAttempt := execution.currentAttempt + 1, state := AttemptPending);
      return Ok(S.Reading(execution, attempt, S.Retry, None));
    }
    if backend.None? {
      if observation.correlation.CorrFound? {
        execution := execution.(acceptanceConfirmed := true);
      }
      execution := execution.(state := AttemptUnknown);
      return Ok(S.Reading(execution, attempt, S.Observe, None));
    }
    if !observation.correlation.CorrFound? {
      execution := execution.(state := AttemptUnknown, lastFailure := Some(S.UncorrelatedFailure()));
      return Ok(S.Reading(execution, attempt, S.Observe, None));
    }
    if backend.value.handle.Some? {
      execution := execution.(handle := backend.value.handle);
    }
    execution := execution.(acceptanceConfirmed := true);
    execution := AcceptProviderEvidence(execution, observation.observedAt);
    match backend.value.state {
      case BackendAccepted | BackendRunning | BackendUnknown =>
        execution := execution.(state := AttemptAccepted);
        if backend.value.state.BackendUnknown? {
          execution := execution.(state := AttemptUnknown);
        }
        return Ok(S.Reading(execution, attempt, S.Observe, None));
      case BackendSucceeded =>
        execution := execution.(state := AttemptSucceeded);
        return Ok(S.Reading(execution, attempt, S.ObservedSuccess, Some(Finish(true, S.ObservationSucceeded(), "", observation.facts))));
      case BackendFailed =>
        var failure := ExecutionFailureFrom(None, backend);
        execution := execution.(state := AttemptFailed, lastFailure := Some(failure));
        return Ok(S.Reading(execution, attempt, S.ObservedFailure, Some(Finish(false, failure.reason, failure.message, observation.facts))));
      case BackendInvalid(_) =>
        return Err(S.InvalidState);
    }
  }
}
