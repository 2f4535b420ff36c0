/** Terminal evidence becomes a lifecycle outcome, and the check that later readers
    make of what was persisted about it. */
module Finishing {
  import opened Basics
  import opened Domain
  import OperationRuns
  import opened Lifecycle
  import opened LifecycleFacts
  import opened LifecycleRuns
  import opened Provisioning
  import opened Submission

  function Sanitized(f: ObservedFacts): ObservedFacts {
    if FactsAcceptable(f) then f else NO_FACTS
  }

  /** The engine's own outcome of a finish, before any facts are applied. */
  function EngineOutcome(o: Operation, r: Resource, s: ResourceStatus, finish: Finish, at: Time): Result<Transition, EngineError> {
    if finish.succeeded then Complete(r, s, o, InternalEventID(o.id, "succeeded"), at)
    else Fail(r, s, o, finish.reason, finish.message, InternalEventID(o.id, "failed"), at)
  }

  function BuildFinishEvidence(o: Operation, r: Resource, s: ResourceStatus, finish: Finish, at: Time):
    (t: Result<Transition, EngineError>)
  {
    var done := EngineOutcome(o, r, s, finish, at);
    if done.Err? then done
    else
      var facts := Sanitized(finish.facts);
      if !HasFacts(facts) then done
      else
        var seen := ApplyPostOperationObservation(r, done.value.status, facts, at);
        if seen.Err? then Err(seen.error) else Ok(done.value.(status := seen.value))
  }

  /** The operation is running in its final phase and the status represents it. */
  predicate ReadyToFinish(o: Operation, r: Resource, s: ResourceStatus) {
    Coherent(World(r, s, Some(o))) && o.state.OpRunning? && IsFinalPhase(o)
  }

  lemma EngineOutcomeAccepts(o: Operation, r: Resource, s: ResourceStatus, finish: Finish, at: Time)
    requires Coherent(World(r, s, Some(o))) && !o.IsTerminal()
    requires finish.succeeded ==> o.state.OpRunning? && IsFinalPhase(o)
    requires s.updatedAt <= at && (finish.succeeded || !Blank(finish.reason))
    ensures var done := EngineOutcome(o, r, s, finish, at);
            && done.Ok? && done.value.operation.IsTerminal() && done.value.operation.completedAt == at
            && Coherent(World(r, done.value.status, Some(done.value.operation)))
            && done.value.status.updatedAt == at
            && done.value.status.observedGeneration == s.observedGeneration
  {
    hide Upsert, ByKind, UniqueKinds, ConditionsFit, CompletedConditions, FailedConditions, InternalEventID;
    var w := World(r, s, Some(o));
    FitsLater(s.conditions, s.observedGeneration, s.updatedAt, s.observedGeneration, at);
    if finish.succeeded {
      CompletedFacts(r, s, o, at);
      CompleteKeepsCoherent(w, DoComplete(InternalEventID(o.id, "succeeded"), at));
    } else {
      FailedFacts(r, s, o, finish.reason, finish.message, at);
      FailKeepsCoherent(w, DoFail(finish.reason, finish.message, InternalEventID(o.id, "failed"), at));
    }
  }

  lemma PostObservationAccepts(w: World, f: ObservedFacts, at: Time)
    requires Coherent(w) && FactsValid(f) && w.latest.Some? && w.latest.value.IsTerminal()
    requires w.status.updatedAt <= at && w.resource.updatedAt <= at
    ensures var seen := ApplyPostOperationObservation(w.resource, w.status, f, at);
            && seen.Ok? && Coherent(w.(status := seen.value))
            && seen.value.state == w.status.state
            && seen.value.observedGeneration == w.status.observedGeneration
            && seen.value.updatedAt == at
  {
    hide Upsert, ByKind, UniqueKinds, ConditionsFit, ObservedConditions;
    FitsLater(w.status.conditions, w.status.observedGeneration, w.status.updatedAt, w.status.observedGeneration, at);
    ObservedFactsFit(w.status, f, at);
    ObserveKeepsCoherent(w, DoPostObserve(f, at));
  }

  /** Finishing never errors; whatever facts come along, the state and the observed
      generation are the engine's own outcome, and the result stays coherent. A
      failure may also end an operation that has not reached its final phase. */
  lemma FinishNeverErrors(o: Operation, r: Resource, s: ResourceStatus, finish: Finish, at: Time)
    requires Coherent(World(r, s, Some(o))) && !o.IsTerminal()
    requires finish.succeeded ==> ReadyToFinish(o, r, s)
    requires s.updatedAt <= at && r.updatedAt <= at && (finish.succeeded || !Blank(finish.reason))
    ensures var t := BuildFinishEvidence(o, r, s, finish, at);
            var engine := EngineOutcome(o, r, s, finish, at);
            && t.Ok? && engine.Ok?
            && t.value.operation == engine.value.operation
            && t.value.operation.completedAt == at
            && t.value.operation.state == (if finish.succeeded then OpSucceeded else OpFailed)
            && t.value.status.state == engine.value.status.state
            && t.value.status.observedGeneration == s.observedGeneration
            && t.value.status.updatedAt == at
            && Coherent(World(r, t.value.status, Some(t.value.operation)))
  {
    hide Coherent, ApplyPostOperationObservation, Complete, Fail;
    assert finish.succeeded ==> o.state.OpRunning? && IsFinalPhase(o);
    EngineOutcomeAccepts(o, r, s, finish, at);
    EngineOutcomeState(o, r, s, finish, at);
    var done := EngineOutcome(o, r, s, finish, at).value;
    var facts := Sanitized(finish.facts);
    if HasFacts(facts) {
      PostObservationAccepts(World(r, done.status, Some(done.operation)), facts, at);
    }
  }

  lemma EngineOutcomeState(o: Operation, r: Resource, s: ResourceStatus, finish: Finish, at: Time)
    requires EngineOutcome(o, r, s, finish, at).Ok?
    ensures var done := EngineOutcome(o, r, s, finish, at).value.operation;
            && done.completedAt == at
            && done == o.(state := done.state, completedAt := at, failure := done.failure)
            && done.state == (if finish.succeeded then OpSucceeded else OpFailed)
            && done.failure == (if finish.succeeded then None else Some(Failure(finish.reason, finish.message)))
  {
    hide CompletedConditions, FailedConditions, InternalEventID, StatusWellFormed;
  }

  /** Malformed facts behave exactly as no facts. */
  lemma MalformedFactsAreNoFacts(o: Operation, r: Resource, s: ResourceStatus, finish: Finish, at: Time)
    requires !FactsAcceptable(finish.facts)
    ensures BuildFinishEvidence(o, r, s, finish, at) == BuildFinishEvidence(o, r, s, finish.(facts := NO_FACTS), at)
  {
    hide Complete, Fail;
  }

  // ------------------------------------------------ what later readers accept

  predicate ValidFailureKind(k: FailureKind) {
    !k.KindInvalid?
  }

  function MalformedReason(): string { "MalformedExecutionFailure" }

  function MalformedDetail(): string { "provider reported failure without details" }

  /** The reader's own normalization, which differs from the writer's `FailureFrom`. */
  function NormalizeFailure(f: Option<ExecutionFailure>): ExecutionFailure {
    if f.None? then ExecutionFailure(KindUnknown, MalformedReason(), MalformedDetail())
    else
      var g := if ValidFailureKind(f.value.kind) then f.value else f.value.(kind := KindUnknown);
      if Blank(g.reason) then
        g.(reason := MalformedReason(), message := if g.message == "" then MalformedDetail() else g.message)
      else g
  }

  /** The observation holding the newest recorded backend execution. */
  function TerminalObservation(x: Execution): Option<Observation> {
    if x.lastObservation.Some? && x.lastObservation.value.execution.Some? then x.lastObservation
    else if x.submission.Some? && x.submission.value.execution.Some? then x.submission
    else None
  }

  predicate AbsenceCompletedDelete(x: Execution, o: Operation, e: BackendExecution) {
    && o.capability.Delete? && o.state.OpSucceeded?
    && x.state.AttemptSucceeded? && x.correlation.CorrNotFound? && !x.acceptanceConfirmed
    && e.state.BackendFailed? && e.failure.Some? && e.failure.value.kind.KindNotFound?
  }

  /** Whether a settled execution and its operation tell one consistent story. */
  predicate EvidenceConsistent(x: Execution, o: Operation) {
    var seen := TerminalObservation(x);
    seen.Some? &&
    var e := seen.value.execution.value;
    var absent := AbsenceCompletedDelete(x, o, e);
    var outputRejected := x.state.AttemptSucceeded? && x.outputs.resolution.ResolutionRejected?;
    && (absent || (if x.state.AttemptSucceeded? then e.state.BackendSucceeded? else e.state.BackendFailed?))
    && x.lastObservedAt != ZERO_TIME
    && (seen.value.observedAt != ZERO_TIME && x.lastProviderObservedAt != ZERO_TIME ==>
          seen.value.observedAt == x.lastProviderObservedAt)
    && (o.IsTerminal() ==> o.completedAt == x.lastObservedAt)
    && (e.state.BackendFailed? && !absent ==> x.lastFailure == Some(NormalizeFailure(e.failure)))
    && (o.state.OpSucceeded? ==> x.state.AttemptSucceeded?)
    && (o.state.OpFailed? ==> x.state.AttemptFailed? || outputRejected)
    && (o.state.OpFailed? ==>
          o.failure.Some? &&
          if outputRejected then
            x.outputs.failure == o.failure && o.failure.value.reason != ""
          else
            o.failure.value == Failure(NormalizeFailure(e.failure).reason, NormalizeFailure(e.failure).message))
  }

  /** What every later reader demands: a consistent story that, as long as the operation
      is not over, is not older than what is stored about the resource. */
  predicate EvidenceAccepted(x: Execution, r: Resource, s: ResourceStatus, o: Operation) {
    && EvidenceConsistent(x, o)
    && (!o.IsTerminal() ==> r.updatedAt <= x.lastObservedAt && s.updatedAt <= x.lastObservedAt)
  }

  /** A failed execution that says why: a supported kind and a reason. */
  predicate FailureDocumented(e: BackendExecution) {
    e.failure.Some? && ValidFailureKind(e.failure.value.kind) && !Blank(e.failure.value.reason)
  }

  lemma NormalizersAgree(e: BackendExecution)
    ensures FailureFrom(None, Some(e)) == NormalizeFailure(e.failure) <==> FailureDocumented(e)
  {
    var written, read := FailureFrom(None, Some(e)), NormalizeFailure(e.failure);
    if e.failure.Some? {
      if !ValidFailureKind(e.failure.value.kind) {
        assert written.kind != read.kind;
      } else if Blank(e.failure.value.reason) {
        WrittenReasonDiffers(e.failure.value.reason);
      }
    } else {
      assert |written.reason| != |read.reason|;
    }
  }

  lemma WrittenReasonDiffers(reason: string)
    requires Blank(reason)
    ensures (if reason == "" then DefaultFailureReason() else reason) != MalformedReason()
  {
    if reason != "" {
      assert IsSpace(reason[0]) && MalformedReason()[0] == 'M';
    }
  }

  /** The terminal records a submission writes, finished at their observation time,
      are accepted by every later reader exactly when a failing backend execution
      documented its failure. Deletes completed by absence are always accepted. */
  lemma SubmissionEvidenceIsAccepted(x: Execution, a: Attempt, submitted: Observation, error: Option<string>, detail: string,
                                     at: Time, o: Operation, r: Resource, s: ResourceStatus, read: Reading<SubmissionOutcome>, t: Transition)
    requires !x.IsSettled() && x.intent.capability == o.capability
    requires read == InterpretSubmission(x, a, submitted, error, detail, at) && read.finish.Some?
    requires BuildFinishEvidence(o, r, s, read.finish.value, read.execution.lastObservedAt) == Ok(t)
    ensures submitted.execution.Some?
    ensures EvidenceAccepted(read.execution, r, t.status, t.operation) <==>
              (read.finish.value.succeeded || FailureDocumented(submitted.execution.value))
  {
    hide BuildFinishEvidence, EngineOutcome, EvidenceFresh, Complete, Fail, ApplyPostOperationObservation, FailureFrom, NormalizeFailure, FactsAcceptable, MalformedFailure,
         StaleFailure, FailureDocumented, ValidFailureKind, SubmissionSucceeded, ManagedTargetAbsent;
    EngineTime(o, r, s, read.finish.value, read.execution.lastObservedAt);
    EngineOutcomeState(o, r, s, read.finish.value, read.execution.lastObservedAt);
    assert submitted.execution.Some?;
    NormalizersAgree(submitted.execution.value);
  }

  lemma EngineTime(o: Operation, r: Resource, s: ResourceStatus, finish: Finish, at: Time)
    requires BuildFinishEvidence(o, r, s, finish, at).Ok?
    ensures at != ZERO_TIME && EngineOutcome(o, r, s, finish, at).Ok?
    ensures BuildFinishEvidence(o, r, s, finish, at).value.operation == EngineOutcome(o, r, s, finish, at).value.operation
  {
    hide CompletedConditions, FailedConditions, InternalEventID, StatusWellFormed, ApplyPostOperationObservation;
  }

  /** The same for the records an observation writes. */
  lemma ObservationEvidenceIsAccepted(x: Execution, a: Attempt, observed: Observation, at: Time,
                                      o: Operation, r: Resource, s: ResourceStatus, read: Reading<ObservationOutcome>, t: Transition)
    requires !x.IsSettled() && x.intent.capability == o.capability
    requires InterpretObservation(x, a, observed, at) == Ok(read) && read.finish.Some?
    requires BuildFinishEvidence(o, r, s, read.finish.value, read.execution.lastObservedAt) == Ok(t)
    ensures observed.execution.Some?
    ensures EvidenceAccepted(read.execution, r, t.status, t.operation) <==>
              (read.finish.value.succeeded || FailureDocumented(observed.execution.value))
  {
    hide BuildFinishEvidence, EngineOutcome, Complete, Fail, ApplyPostOperationObservation, FailureFrom, NormalizeFailure, FactsAcceptable,
         FailureDocumented, ValidFailureKind, ObservationSucceeded, UncorrelatedFailure;
    EngineTime(o, r, s, read.finish.value, read.execution.lastObservedAt);
    EngineOutcomeState(o, r, s, read.finish.value, read.execution.lastObservedAt);
    NormalizersAgree(observed.execution.value);
  }
}
