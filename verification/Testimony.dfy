/** What a worker reads from a backend supports the outcome it writes: the records behind
    every finish, one reading at a time. */
module Testimony {
  import opened Basics
  import opened Cells
  import opened Convergence
  import opened Domain
  import opened Finishing
  import opened FinishFacts
  import opened Lifecycle
  import opened Outputs
  import opened Provisioning
  import opened Store
  import opened Submission

  /** The newest recorded backend execution is dated as the backend clock is, when both are. */
  predicate DatesAgree(x: Execution, seen: Observation) {
    seen.observedAt != ZERO_TIME && x.lastProviderObservedAt != ZERO_TIME ==> seen.observedAt == x.lastProviderObservedAt
  }

  predicate AbsentDelete(x: Execution, capability: Capability, e: BackendExecution) {
    && capability.Delete? && x.correlation.CorrNotFound? && !x.acceptanceConfirmed
    && e.state.BackendFailed? && e.failure.Some? && e.failure.value.kind.KindNotFound?
  }

  /** The record supports the finish, at that instant. */
  predicate Supports(x: Execution, capability: Capability, finish: Finish, at: Time) {
    var seen := TerminalObservation(x);
    && at != ZERO_TIME && x.lastObservedAt == at && seen.Some? && DatesAgree(x, seen.value)
    && var e := seen.value.execution.value;
    if finish.succeeded then
      x.state.AttemptSucceeded? && (e.state.BackendSucceeded? || AbsentDelete(x, capability, e))
    else
      && x.state.AttemptFailed? && e.state.BackendFailed?
      && x.lastFailure == Some(NormalizeFailure(e.failure))
      && finish.reason == NormalizeFailure(e.failure).reason && finish.message == NormalizeFailure(e.failure).message
  }

  /** Failed executions say why. */
  predicate Documented(o: Observation) {
    o.execution.Some? && o.execution.value.state.BackendFailed? ==> FailureDocumented(o.execution.value)
  }

  /** The evidence is not older than the newest recorded. */
  predicate Timely(x: Execution, at: Time) {
    EvidenceFresh(x.lastObservedAt, at) || x.lastObservedAt == at
  }

  /** A documented submission result that is not older than the record supports its finish. */
  lemma SubmissionSupports(x: Execution, a: Attempt, s: Observation, error: Option<string>, detail: string, at: Time)
    requires !x.IsSettled() && InterpretSubmission(x, a, s, error, detail, at).finish.Some?
    requires Documented(s) && Timely(x, at) && at != ZERO_TIME
    ensures var r := InterpretSubmission(x, a, s, error, detail, at);
            Supports(r.execution, x.intent.capability, r.finish.value, at)
  {
    hide FactsAcceptable, MalformedFailure, StaleFailure, SubmissionSucceeded, ManagedTargetAbsent, FailureFrom, NormalizeFailure, FailureDocumented;
    assert s.execution.Some?;
    NormalizersAgree(s.execution.value);
  }

  lemma ObservationSupports(x: Execution, a: Attempt, o: Observation, at: Time)
    requires !x.IsSettled() && InterpretObservation(x, a, o, at).Ok? && InterpretObservation(x, a, o, at).value.finish.Some?
    requires Documented(o) && at != ZERO_TIME
    ensures var r := InterpretObservation(x, a, o, at).value;
            Supports(r.execution, x.intent.capability, r.finish.value, at)
  {
    hide FactsAcceptable, ObservationSucceeded, UncorrelatedFailure, FailureFrom, NormalizeFailure, FailureDocumented;
    assert o.execution.Some?;
    NormalizersAgree(o.execution.value);
  }

  // ------------------------------------------------------------- what is written

  lemma AlignedTime(x: Execution, at: Time, rec: Record)
    requires x.lastObservedAt == at
    ensures AlignedExecution(x, at, rec) == x.(lastObservedAt := Aligned(at, rec))
    ensures at <= Aligned(at, rec)
  {
  }

  lemma FailedIsConsistent(s: Records, id: ResourceID, o: Operation, x: Execution, finish: Finish, at: Time, n: Records)
    requires id in s.resources && FinishFailed(s, id, o, x, finish, at) == Ok(n) && !finish.succeeded
    requires Supports(x, o.capability, finish, at)
    ensures o.id in n.operations && o.id in n.executions && n.operations[o.id].IsTerminal()
    ensures EvidenceConsistent(n.executions[o.id], n.operations[o.id])
  {
    hide BuildFinishEvidence, EngineOutcome, NormalizeFailure, DriftAfter, Aligned, AlignedExecution;
    var rec := s.resources[id];
    AlignedTime(x, at, rec);
    EngineTime(o, rec.resource, rec.status, finish, Aligned(at, rec));
    EngineOutcomeState(o, rec.resource, rec.status, finish, Aligned(at, rec));
  }

  lemma SucceededIsConsistent(s: Records, id: ResourceID, o: Operation, x: Execution, finish: Finish, snapshot: Option<ResourceOutputs>,
                              at: Time, n: Records)
    requires id in s.resources && FinishSucceeded(s, id, o, x, finish, snapshot, at) == Ok(n) && finish.succeeded
    requires Supports(x, o.capability, finish, at)
    ensures o.id in n.operations && o.id in n.executions && n.operations[o.id].IsTerminal()
    ensures EvidenceConsistent(n.executions[o.id], n.operations[o.id])
  {
    hide BuildFinishEvidence, EngineOutcome, NormalizeFailure, DriftAfter, Aligned, AlignedExecution, Publish, RowsAfterSuccess;
    var rec := s.resources[id];
    AlignedTime(x, at, rec);
    EngineTime(o, rec.resource, rec.status, finish, Aligned(at, rec));
    EngineOutcomeState(o, rec.resource, rec.status, finish, Aligned(at, rec));
  }

  lemma RejectedIsConsistent(s: Records, id: ResourceID, o: Operation, x: Execution, detail: string, finish: Finish, at: Time, n: Records)
    requires id in s.resources && FinishRejected(s, id, o, x, detail, at) == Ok(n) && finish.succeeded && !o.capability.Delete?
    requires Supports(x, o.capability, finish, at)
    ensures o.id in n.operations && o.id in n.executions && n.operations[o.id].IsTerminal()
    ensures EvidenceConsistent(n.executions[o.id], n.operations[o.id])
  {
    hide BuildFinishEvidence, EngineOutcome, NormalizeFailure;
    var rec := s.resources[id];
    var rejection := Finish(false, RejectionReason(), detail, NO_FACTS);
    EngineTime(o, rec.resource, rec.status, rejection, at);
    EngineOutcomeState(o, rec.resource, rec.status, rejection, at);
  }
}
