/** Which persisted evidence later readers accept, by how the operation ended, and what a
    finish makes of the facts that come with it. */
module EvidenceMeaning {
  import opened Basics
  import opened Domain
  import EngineRules
  import OperationRuns
  import opened Finishing
  import opened Lifecycle
  import opened LifecycleRuns
  import opened Provisioning
  import opened Readings
  import opened StatusStory
  import opened Submission

  // ------------------------------------------------------- what a reader accepts

  /** The newest report that mentions an execution: an observation before the submission. */
  predicate Newest(x: Execution, o: Observation) {
    && o.execution.Some?
    && (x.lastObservation == Some(o)
        || (x.submission == Some(o) && (x.lastObservation.Some? ==> x.lastObservation.value.execution.None?)))
  }

  lemma NewestIsRead(x: Execution, o: Observation)
    ensures TerminalObservation(x) == Some(o) <==> Newest(x, o)
  {
  }

  /** Recorded, and by the backend's clock, where both name a time, the latest word. */
  predicate Dated(x: Execution, o: Observation) {
    0 < x.lastObservedAt && (0 < o.observedAt && 0 < x.lastProviderObservedAt ==> o.observedAt == x.lastProviderObservedAt)
  }

  /** The failure as readers put it: a known kind and a reason that says something. */
  predicate PutAs(f: Option<ExecutionFailure>, n: ExecutionFailure) {
    && n.kind == (if f.None? || f.value.kind.KindInvalid? then KindUnknown else f.value.kind)
    && n.reason == (if f.None? || Blank(f.value.reason) then "MalformedExecutionFailure" else f.value.reason)
    && n.message == (if f.None? || (Blank(f.value.reason) && f.value.message == "") then "provider reported failure without details"
                     else f.value.message)
  }

  lemma NormalizedExactly(f: Option<ExecutionFailure>, n: ExecutionFailure)
    ensures NormalizeFailure(f) == n <==> PutAs(f, n)
    ensures PutAs(f, n) ==> !n.kind.KindInvalid? && !Blank(n.reason)
  {
    hide Blank;
    if PutAs(f, n) {
      SaysSomething();
    }
  }

  lemma SaysSomething()
    ensures !Blank("MalformedExecutionFailure")
  {
    assert !IsSpace("MalformedExecutionFailure"[0]);
  }

  /** The target of a delete that was never accepted was reported missing. */
  predicate ToldAbsent(x: Execution, o: Operation, seen: Observation) {
    && o.capability == Delete && x.correlation == CorrNotFound && !x.acceptanceConfirmed
    && Reports(seen, BackendFailed) && seen.execution.value.failure.Some? && seen.execution.value.failure.value.kind == KindNotFound
  }

  /** Evidence of a success: it was seen to succeed, or its target to be absent, at the
      very time the operation was completed. */
  lemma SuccessAcceptedExactly(x: Execution, r: Resource, s: ResourceStatus, o: Operation, seen: Observation)
    requires o.state == OpSucceeded && Newest(x, seen)
    ensures EvidenceAccepted(x, r, s, o) <==>
              && x.state == AttemptSucceeded && Dated(x, seen) && o.completedAt == x.lastObservedAt
              && (Reports(seen, BackendSucceeded) || ToldAbsent(x, o, seen))
  {
    hide NormalizeFailure;
    NewestIsRead(x, seen);
  }

  /** Evidence of a failure: it was seen to fail, for the reason the operation and the
      execution both give, or it was seen to succeed and its outputs were rejected. */
  lemma FailureAcceptedExactly(x: Execution, r: Resource, s: ResourceStatus, o: Operation, seen: Observation, n: ExecutionFailure)
    requires o.state == OpFailed && Newest(x, seen) && PutAs(seen.execution.value.failure, n)
    ensures EvidenceAccepted(x, r, s, o) <==>
              && Dated(x, seen) && o.completedAt == x.lastObservedAt && o.failure.Some?
              && ((x.state == AttemptFailed && Reports(seen, BackendFailed) && x.lastFailure == Some(n)
                   && o.failure == Some(Failure(n.reason, n.message)))
                  || (x.state == AttemptSucceeded && Reports(seen, BackendSucceeded) && x.outputs.resolution == ResolutionRejected
                      && x.outputs.failure == o.failure && o.failure.value.reason != ""))
  {
    hide NormalizeFailure, PutAs;
    NewestIsRead(x, seen);
    NormalizedExactly(seen.execution.value.failure, n);
  }

  /** Evidence about an operation in progress: its own end, and nothing older than what is
      stored of the resource. */
  lemma OpenAcceptedExactly(x: Execution, r: Resource, s: ResourceStatus, o: Operation, seen: Observation, n: ExecutionFailure)
    requires !o.IsTerminal() && Newest(x, seen) && PutAs(seen.execution.value.failure, n)
    ensures EvidenceAccepted(x, r, s, o) <==>
              && Dated(x, seen) && r.updatedAt <= x.lastObservedAt && s.updatedAt <= x.lastObservedAt
              && (if x.state == AttemptSucceeded then Reports(seen, BackendSucceeded)
                  else Reports(seen, BackendFailed) && x.lastFailure == Some(n))
  {
    hide NormalizeFailure, PutAs;
    NewestIsRead(x, seen);
    NormalizedExactly(seen.execution.value.failure, n);
  }

  /** Without a report of an execution there is no evidence. */
  lemma NothingSeenIsRefused(x: Execution, r: Resource, s: ResourceStatus, o: Operation)
    requires forall seen :: !Newest(x, seen)
    ensures !EvidenceAccepted(x, r, s, o)
  {
    if TerminalObservation(x).Some? {
      NewestIsRead(x, TerminalObservation(x).value);
    }
  }

  // ------------------------------------------------------------ what a finish does

  /** A finish is accepted exactly of an operation in progress, in its final phase when it
      succeeds, with a reason when it fails, and not before anything recorded. */
  lemma FinishAcceptedExactly(o: Operation, r: Resource, s: ResourceStatus, finish: Finish, at: Time)
    requires Coherent(World(r, s, Some(o)))
    ensures BuildFinishEvidence(o, r, s, finish, at).Ok? <==>
              && s.updatedAt <= at && (Carries(finish) ==> r.updatedAt <= at)
              && (if finish.succeeded then o.state == OpRunning && IsFinalPhase(o)
                  else o.state in {OpPending, OpRunning} && !Blank(finish.reason))
  {
    hide Coherent, Complete, Fail, ObserveWith, InternalEventID;
    var w := World(r, s, Some(o));
    var event := InternalEventID(o.id, if finish.succeeded then "succeeded" else "failed");
    EngineRulesApply(w, finish, event, at);
    CarriesFacts(finish);
    if EngineOutcome(o, r, s, finish, at).Ok? {
      var done := EngineOutcome(o, r, s, finish, at).value;
      if Carries(finish) {
        EngineRules.ObserveAcceptedExactly(World(r, done.status, Some(done.operation)), Sanitized(finish.facts), false, at);
        SetTimes(w);
      }
    }
  }

  lemma SetTimes(w: World)
    requires Coherent(w)
    ensures 0 < w.status.updatedAt
  {
  }


  lemma EngineRulesApply(w: World, finish: Finish, event: EventID, at: Time)
    requires Coherent(w) && w.latest.Some? && !Blank(event)
    requires event == InternalEventID(w.latest.value.id, if finish.succeeded then "succeeded" else "failed")
    ensures var done := EngineOutcome(w.latest.value, w.resource, w.status, finish, at);
            && (done.Ok? <==>
                  && w.status.updatedAt <= at
                  && (if finish.succeeded then w.latest.value.state == OpRunning && IsFinalPhase(w.latest.value)
                      else w.latest.value.state in {OpPending, OpRunning} && !Blank(finish.reason)))
            && (done.Ok? ==>
                  && done.value.operation.IsTerminal() && done.value.status.updatedAt == at
                  && Coherent(World(w.resource, done.value.status, Some(done.value.operation))))
  {
    hide Complete, Fail, InternalEventID, Coherent, Blank, StatusWellFormed;
    EngineRules.CompleteAcceptedExactly(w, event, at);
    EngineRules.FailAcceptedExactly(w, finish.reason, finish.message, event, at);
    CompleteKeepsCoherent(w, DoComplete(event, at));
    FailKeepsCoherent(w, DoFail(finish.reason, finish.message, event, at));
    NoCancel(w);
  }

  lemma NoCancel(w: World)
    requires Coherent(w) && w.latest.Some?
    ensures !w.latest.value.IsTerminal() <==> w.latest.value.state in {OpPending, OpRunning}
    ensures !w.latest.value.capability.OtherCapability?
  {
  }

  /** The finish brings facts that read. */
  predicate Carries(finish: Finish) {
    FactsReadable(finish.facts) && finish.facts != ObservedFacts(PresenceUnset, ReadinessUnset, DriftUnset)
  }

  lemma CarriesFacts(finish: Finish)
    ensures HasFacts(Sanitized(finish.facts)) <==> Carries(finish)
    ensures Carries(finish) ==> Sanitized(finish.facts) == finish.facts && FactsValid(finish.facts)
  {
  }

  /** What the facts of a finish leave in the status: drift and readiness as reported; with
      none that read, the conditions are those of the outcome itself. */
  lemma FinishTakesFacts(o: Operation, r: Resource, s: ResourceStatus, finish: Finish, at: Time, t: Transition)
    requires BuildFinishEvidence(o, r, s, finish, at) == Ok(t)
    ensures EngineOutcome(o, r, s, finish, at).Ok?
    ensures var done := EngineOutcome(o, r, s, finish, at).value;
            && t.operation == done.operation && t.event == done.event && t.status.state == done.status.state
            && (!Carries(finish) ==> t.status == done.status)
            && (Carries(finish) ==>
                  && FindCondition(t.status.conditions, CondDrifted) == Some(DriftReported(finish.facts, s.observedGeneration, at))
                  && FindCondition(t.status.conditions, CondReady) ==
                       ReadinessReported(finish.facts, FindCondition(done.status.conditions, CondReady), s.observedGeneration, at))
  {
    hide Complete, Fail, ObservedConditions, FindCondition, StatusWellFormed, InternalEventID, DriftReported, ReadinessReported;
    CarriesFacts(finish);
    var done := EngineOutcome(o, r, s, finish, at).value;
    OutcomeGeneration(o, r, s, finish, at);
    if Carries(finish) {
      ObserveWrites(done.status, finish.facts, at);
    }
  }

  lemma OutcomeGeneration(o: Operation, r: Resource, s: ResourceStatus, finish: Finish, at: Time)
    requires EngineOutcome(o, r, s, finish, at).Ok?
    ensures EngineOutcome(o, r, s, finish, at).value.status.observedGeneration == s.observedGeneration
  {
    hide CompletedConditions, FailedConditions, StatusWellFormed, InternalEventID;
  }
}
