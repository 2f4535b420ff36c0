/** How uncertain backend evidence settles an attempt: accepted, lost, retried or finished. */
module Submission {
  import opened Basics
  import opened Domain
  import opened Provisioning

  datatype SubmissionOutcome = Ambiguous | Accepted | Succeeded | Failed

  datatype ObservationOutcome = Stale | Rejected | Retry | Observe | ObservedSuccess | ObservedFailure

  /** The records to persist, the outcome, and the evidence to finish with, if any. */
  datatype Reading<O> = Reading(execution: Execution, attempt: Attempt, outcome: O, finish: Option<Finish>)

  datatype EvidenceError = Contradictory | MalformedFacts | InvalidState

  const ABSENT_FACTS := ObservedFacts(PresenceNotFound, ReadinessUnknown, DriftUnknown)

  // ------------------------------------------------------------ small judgements

  /** Evidence at or before the recorded instant is stale. */
  predicate EvidenceFresh(recorded: Time, at: Time) {
    recorded == ZERO_TIME || recorded < at
  }

  predicate ProviderStale(x: Execution, at: Time) {
    at != ZERO_TIME && x.lastProviderObservedAt != ZERO_TIME && at <= x.lastProviderObservedAt
  }

  function AcceptProvider(recorded: Time, at: Time): Time {
    if recorded < at then at else recorded
  }

  predicate HasFacts(f: ObservedFacts) {
    f != NO_FACTS
  }

  predicate FactsAcceptable(f: ObservedFacts) {
    !HasFacts(f) || FactsValid(f)
  }

  predicate TerminalBackend(e: Option<BackendExecution>) {
    e.Some? && (e.value.state.BackendSucceeded? || e.value.state.BackendFailed?)
  }

  /** Proof that a cleanup delete has nothing left to destroy: every guard at once. */
  predicate ConclusiveManagedAbsence(capability: Capability, correlation: Correlation, e: Option<BackendExecution>, accepted: bool) {
    && capability.Delete?
    && correlation.CorrNotFound?
    && !accepted
    && e.Some? && e.value.state.BackendFailed?
    && e.value.failure.Some? && e.value.failure.value.kind.KindNotFound?
  }

  function DefaultFailureReason(): string { "ExecutionFailed" }
  function AmbiguousReason(): string { "SubmissionUnknown" }
  function AmbiguousMessage(): string { "submission outcome is ambiguous" }

  function FailureFrom(error: Option<string>, e: Option<BackendExecution>): ExecutionFailure {
    if e.Some? && e.value.failure.Some? then
      var f := e.value.failure.value;
      f.(reason := if f.reason == "" then DefaultFailureReason() else f.reason)
    else
      ExecutionFailure(KindUnknown, AmbiguousReason(), if error.Some? then error.value else AmbiguousMessage())
  }

  /** Malformed facts never travel with terminal evidence. */
  function WithoutMalformedFacts(o: Observation): Observation {
    if FactsAcceptable(o.facts) then o else o.(facts := NO_FACTS)
  }

  function StaleFailure(): ExecutionFailure {
    ExecutionFailure(KindUnknown, "StaleSubmissionEvidence",
                                          "submission evidence does not advance the persisted observation timeline")
  }

  function UncorrelatedFailure(): ExecutionFailure {
    ExecutionFailure(KindUnknown, "ExecutionCorrelationUnknown",
                                                 "terminal execution evidence was not positively correlated")
  }

  function MalformedFailure(detail: string): ExecutionFailure {
    ExecutionFailure(KindUnknown, "MalformedObservedFacts", detail)
  }

  // --------------------------------------------------------- reading a submission

  /** What a submission amounts to, decided before any record changes. */
  datatype SubmissionClass =
    | StaleSubmission | MalformedSubmission | UnclearSubmission
    | TargetAbsent | PreflightRejected | InProgress | CorrelatedSuccess | CorrelatedFailure

  predicate IsPreflightRejection(s: Observation) {
    s.execution.Some? && s.execution.value.state.BackendFailed? && s.execution.value.failure.Some? && s.correlation.CorrNotFound?
  }

  function Classify(x: Execution, s: Observation, error: Option<string>): SubmissionClass {
    if s.execution.Some? && ProviderStale(x, s.observedAt) then StaleSubmission
    else if !FactsAcceptable(s.facts) && !TerminalBackend(s.execution) then MalformedSubmission
    else ClassifyUsable(x, s, error)
  }

  function ClassifyUsable(x: Execution, s: Observation, error: Option<string>): SubmissionClass {
    if s.execution.None? || (error.Some? && !TerminalBackend(s.execution)) then UnclearSubmission
    else match s.execution.value.state
      case BackendUnknown | BackendInvalid(_) => UnclearSubmission
      case BackendAccepted | BackendRunning => if s.correlation.CorrFound? then InProgress else UnclearSubmission
      case BackendSucceeded => if s.correlation.CorrFound? then CorrelatedSuccess else UnclearSubmission
      case BackendFailed =>
        if IsPreflightRejection(s) then
          if ConclusiveManagedAbsence(x.intent.capability, CorrNotFound, s.execution, x.acceptanceConfirmed) then TargetAbsent
          else PreflightRejected
        else if s.correlation.CorrFound? then CorrelatedFailure
        else UnclearSubmission
  }

  /** The record changes every usable submission makes. */
  function Recorded(x: Execution, s: Observation, at: Time): Execution {
    x.(submission := Some(s),
       lastObservation := Some(s),
       correlation := if s.correlation.CorrInvalid? then CorrUnknown else s.correlation,
       handle := if s.execution.Some? && s.execution.value.handle.Some? then s.execution.value.handle else x.handle,
       lastObservedAt := if s.execution.Some? && EvidenceFresh(x.lastObservedAt, at) then at else x.lastObservedAt,
       lastProviderObservedAt := AcceptProvider(x.lastProviderObservedAt, s.observedAt))
  }

  function Unsettled(x: Execution, a: Attempt, why: ExecutionFailure): Reading<SubmissionOutcome> {
    Reading(x.(state := AttemptUnknown, correlation := CorrUnknown, lastFailure := Some(why)),
            a.(state := SubUnknown, failure := Some(why)), Ambiguous, None)
  }

  function SubmissionSucceeded(): string { "SubmissionSucceeded" }
  function ObservationSucceeded(): string { "ObservationSucceeded" }
  function ManagedTargetAbsent(): string { "ManagedTargetAbsent" }

  function InterpretSubmission(x: Execution, a: Attempt, submitted: Observation, error: Option<string>, detail: string, at: Time):
    (r: Reading<SubmissionOutcome>)
  {
    match Classify(x, submitted, error)
    case StaleSubmission => Unsettled(x, a, StaleFailure())
    case MalformedSubmission => Unsettled(x, a, MalformedFailure(detail))
    case usable =>
      var s := WithoutMalformedFacts(submitted);
      Settle(usable, Recorded(x, s, at), a, s, error, at)
  }

  /** What each usable class makes of the recorded execution. */
  function Settle(c: SubmissionClass, y: Execution, a: Attempt, s: Observation, error: Option<string>, at: Time):
    (r: Reading<SubmissionOutcome>)
  {
    var failure := FailureFrom(None, s.execution);
    match c
    case TargetAbsent =>
      Reading(y.(state := AttemptSucceeded, acceptanceConfirmed := false, correlation := CorrNotFound),
              a.(state := SubRejected, failure := Some(failure), resolvedAt := at), Succeeded,
              Some(Finish(true, ManagedTargetAbsent(), "", ABSENT_FACTS)))
    case PreflightRejected =>
      Reading(y.(state := AttemptFailed, acceptanceConfirmed := false, correlation := CorrNotFound, lastFailure := Some(failure)),
              a.(state := SubRejected, failure := Some(failure), resolvedAt := at), Failed,
              Some(Finish(false, failure.reason, failure.message, s.facts)))
    case InProgress =>
      Reading(y.(state := AttemptAccepted, acceptanceConfirmed := true),
              a.(state := SubAccepted, resolvedAt := at), Accepted, None)
    case CorrelatedSuccess =>
      Reading(y.(state := AttemptSucceeded, acceptanceConfirmed := true),
              a.(state := SubAccepted, resolvedAt := at), Succeeded,
              Some(Finish(true, SubmissionSucceeded(), "", s.facts)))
    case CorrelatedFailure =>
      Reading(y.(state := AttemptFailed, acceptanceConfirmed := true, lastFailure := Some(failure)),
              a.(state := SubAccepted, resolvedAt := at), Failed,
              Some(Finish(false, failure.reason, failure.message, s.facts)))
    case _ =>
      var why := FailureFrom(error, s.execution);
      Reading(y.(state := AttemptUnknown, acceptanceConfirmed := y.acceptanceConfirmed || s.correlation.CorrFound?, lastFailure := Some(why)),
              a.(state := SubUnknown, failure := Some(why)), Ambiguous, None)
  }

  // ------------------------------------------------------- reading an observation

  predicate ObservationStale(x: Execution, o: Observation, at: Time) {
    || ProviderStale(x, o.observedAt)
    || (o.observedAt == ZERO_TIME && x.lastObservedAt != ZERO_TIME && at <= x.lastObservedAt)
  }

  function Noted(x: Execution, o: Observation, at: Time): Execution {
    x.(lastObservation := Some(o), lastObservedAt := at, correlation := o.correlation,
       lastProviderObservedAt := AcceptProvider(x.lastProviderObservedAt, o.observedAt))
  }

  function InterpretObservation(x: Execution, a: Attempt, observed: Observation, at: Time):
    (r: Result<Reading<ObservationOutcome>, EvidenceError>)
  {
    var e := observed.execution;
    if observed.correlation.CorrNotFound? && e.Some? && !e.value.state.BackendFailed? then Err(Contradictory)
    else if ObservationStale(x, observed, at) then Ok(Reading(x, a, Stale, None))
    else if !FactsAcceptable(observed.facts) && !TerminalBackend(e) then Err(MalformedFacts)
    else
      var o := WithoutMalformedFacts(observed);
      var y := Noted(x, o, at);
      var failure := FailureFrom(None, e);
      if o.correlation.CorrNotFound? && e.Some? then
        Ok(Reading(y.(state := AttemptFailed, acceptanceConfirmed := false, lastFailure := Some(failure)),
                   a.(state := SubRejected, failure := Some(failure), resolvedAt := at), Rejected,
                   Some(Finish(false, failure.reason, failure.message, o.facts))))
      else if o.correlation.CorrNotFound? && x.state.AttemptUnknown? && !x.acceptanceConfirmed then
        Ok(Reading(y.(state := AttemptPending, currentAttempt := x.currentAttempt + 1),
                   a.(state := SubNotFound, resolvedAt := at), Retry, None))
      else if e.None? then
        Ok(Reading(y.(state := AttemptUnknown, acceptanceConfirmed := x.acceptanceConfirmed || o.correlation.CorrFound?),
                   a, Observe, None))
      else if !o.correlation.CorrFound? then
        Ok(Reading(y.(state := AttemptUnknown, lastFailure := Some(UncorrelatedFailure())), a, Observe, None))
      else
        var z := y.(acceptanceConfirmed := true, handle := if e.value.handle.Some? then e.value.handle else x.handle);
        match e.value.state
        case BackendAccepted | BackendRunning => Ok(Reading(z.(state := AttemptAccepted), a, Observe, None))
        case BackendUnknown => Ok(Reading(z.(state := AttemptUnknown), a, Observe, None))
        case BackendSucceeded =>
          Ok(Reading(z.(state := AttemptSucceeded), a, ObservedSuccess,
                     Some(Finish(true, ObservationSucceeded(), "", o.facts))))
        case BackendFailed =>
          Ok(Reading(z.(state := AttemptFailed, lastFailure := Some(failure)), a, ObservedFailure,
                     Some(Finish(false, failure.reason, failure.message, o.facts))))
        case BackendInvalid(_) => Err(InvalidState)
  }
}
