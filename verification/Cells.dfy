/** What each engine transition makes of one resource's records. */
module Cells {
  import opened Basics
  import opened Domain
  import OperationRuns
  import opened Finishing
  import opened Lifecycle
  import opened LifecycleFacts
  import opened LifecycleRuns
  import opened Outputs
  import opened Provisioning
  import opened StatusStory
  import opened Store
  import opened Submission

  // ------------------------------------------------------------------ requests

  /** The operation an accepted request starts, and the generation the status then observes. */
  lemma RequestStarts(r: Resource, supported: set<Capability>, s: ResourceStatus, latest: Option<Operation>,
                      capability: Capability, operationID: OperationID, eventID: EventID, at: Time)
    requires Request(r, r.typeRef, supported, s, latest, capability, operationID, eventID, at).Ok?
    ensures var t := Request(r, r.typeRef, supported, s, latest, capability, operationID, eventID, at).value;
            var o := t.operation;
            && o.phaseChangedAt == at && t.status.updatedAt == at
            && o.id == operationID && o.resourceID == r.id && o.capability == capability && o.state.OpPending? && o.phase.Requested?
            && o.targetGeneration == (if IsRetry(latest, capability) then latest.value.targetGeneration else r.generation)
            && t.status.observedGeneration == o.targetGeneration
            && t.status.state == RequestedState(s, capability)
            && RequestAllowed(r, s, capability, IsRetry(latest, capability))
            && !capability.OtherCapability? && capability in supported
            && (latest.Some? ==> latest.value.IsTerminal())
  {
    hide RequestConditions, StatusWellFormed;
  }

  lemma CreatedCell(c: Catalog, rec: Record, supported: set<Capability>, s: ResourceStatus, t: Transition,
                    operationID: OperationID, eventID: EventID, at: Time)
    requires NewResource(rec.resource.id, rec.resource.typeRef, rec.resource.owner, rec.resource.spec, at) == Ok(rec.resource)
    requires NewResourceStatus(rec.resource.id, 0, RsUnknown, [], at) == Ok(s)
    requires Request(rec.resource, rec.resource.typeRef, supported, s, None, Create, operationID, eventID, at) == Ok(t)
    requires rec.status == t.status && rec.resource.typeRef in c
    ensures CellOk(c, rec, t.operation, 0, false, None)
    ensures rec.status.state.RsPending?
  {
    hide Coherent, Tells, Request;
    var w := World(rec.resource, s, None);
    assert Coherent(w) && Tells(w) by {
      FreshIsCoherent(w);
      FreshTells(w);
    }
    var step := DoRequest(supported, false, Create, operationID, eventID, at);
    RequestKeepsCoherent(w, step);
    RequestTells(w, step, World(rec.resource, rec.status, Some(t.operation)));
    RequestStarts(rec.resource, supported, s, None, Create, operationID, eventID, at);
  }

  /** A resource at rest takes a request: after an update its new generation is the one
      now observed; a retry keeps the failed operation's. */
  lemma RequestedCell(c: Catalog, before: Record, after: Record, o: Operation, updates: nat, updated: bool, drifted: bool,
                      published: Option<Published>, supported: set<Capability>, passLatest: bool, t: Transition,
                      capability: Capability, operationID: OperationID, eventID: EventID, at: Time)
    requires CellOk(c, before, o, updates, drifted, published) && o.IsTerminal()
    requires if updated then capability.Update? && !passLatest && UpdateSpec(before.resource, after.resource.spec, at) == Ok(after.resource)
             else after.resource == before.resource
    requires !updated ==> passLatest || capability.Delete?
    requires passLatest ==> o.state.OpFailed? && o.capability == capability
    requires Request(after.resource, after.resource.typeRef, supported, before.status, if passLatest then Some(o) else None,
                     capability, operationID, eventID, at) == Ok(t)
    requires after.status == t.status
    ensures CellOk(c, after, t.operation, updates + (if updated then 1 else 0), drifted, published)
    ensures !after.status.state.RsDeleted?
    ensures after.status.state.RsDeleting? <==> capability.Delete?
  {
    hide Coherent, Tells, Request, StatusWellFormed;
    var w := World(before.resource, before.status, Some(o));
    var v := World(after.resource, before.status, Some(o));
    if updated {
      StepKeepsCoherent(w, DoUpdateSpec(after.resource.spec, at));
    }
    assert Coherent(v);
    RestateTells(w, v);
    var step := DoRequest(supported, passLatest, capability, operationID, eventID, at);
    RequestKeepsCoherent(v, step);
    RequestTells(v, step, World(after.resource, after.status, Some(t.operation)));
    RequestStarts(after.resource, supported, before.status, if passLatest then Some(o) else None, capability, operationID, eventID, at);
    TargetIsObserved(w);
  }

  lemma TargetIsObserved(w: World)
    requires Coherent(w) && w.latest.Some?
    ensures w.latest.value.targetGeneration == w.status.observedGeneration
  {
  }

  // ------------------------------------------------------------------ progress

  lemma AdvancedCell(c: Catalog, rec: Record, o: Operation, updates: nat, drifted: bool, published: Option<Published>,
                     next: Phase, eventID: EventID, at: Time, t: Transition)
    requires CellOk(c, rec, o, updates, drifted, published)
    requires Advance(rec.resource, rec.status, o, next, eventID, at) == Ok(t)
    ensures CellOk(c, rec.(status := t.status), t.operation, updates, drifted, published)
    ensures t.status.state == rec.status.state && !t.operation.IsTerminal() && !o.IsTerminal()
    ensures t.operation == o.(state := t.operation.state, phase := t.operation.phase, startedAt := t.operation.startedAt,
                              phaseChangedAt := t.operation.phaseChangedAt)
  {
    hide Coherent, Tells, StatusWellFormed, Upsert;
    var w := World(rec.resource, rec.status, Some(o));
    AdvanceKeepsCoherent(w, DoAdvance(next, eventID, at));
    AdvanceTells(w, DoAdvance(next, eventID, at), World(rec.resource, t.status, Some(t.operation)));
  }

  lemma WaitingCell(c: Catalog, rec: Record, o: Operation, updates: nat, drifted: bool, published: Option<Published>,
                    condition: ConditionStatus, why: Reason, detail: string, at: Time, status: ResourceStatus)
    requires CellOk(c, rec, o, updates, drifted, published) && !o.IsTerminal()
    requires rec.status.updatedAt <= at <= o.phaseChangedAt + 1
    requires SetDependencyCondition(rec.status, condition, why, detail, at) == Ok(status)
    ensures CellOk(c, rec.(status := status), o, updates, drifted, published)
    ensures status.state == rec.status.state
  {
    hide Coherent, Tells, StatusWellFormed, Upsert;
    var w := World(rec.resource, rec.status, Some(o));
    DependencyKeepsCoherent(w, DoDependency(condition, why, detail, at));
    DependencyTells(w, DoDependency(condition, why, detail, at), World(rec.resource, status, Some(o)));
  }

  // ------------------------------------------------------------------- outcomes

  /** Whether the facts that come with an outcome or observation report drift. */
  predicate ReportsDrift(f: ObservedFacts) {
    FactsValid(f) && f.drift.Drifted?
  }

  lemma CompletedReconciles(r: Resource, s: ResourceStatus, o: Operation, at: Time)
    requires r.generation <= o.targetGeneration && !o.capability.OtherCapability?
    ensures FindCondition(CompletedConditions(r, s, o, at), CondReconciled) ==
              Some(Condition(CondReconciled, CTrue, Known(LifecycleSucceeded), "", o.targetGeneration, at))
  {
    hide Upsert, ByKind, UniqueKinds, ConditionsFit;
  }

  lemma SucceededStatus(r: Resource, s: ResourceStatus, o: Operation, eventID: EventID, at: Time, t: Transition)
    requires Complete(r, s, o, eventID, at) == Ok(t) && r.generation <= o.targetGeneration
    ensures FindCondition(t.status.conditions, CondReconciled) ==
              Some(Condition(CondReconciled, CTrue, Known(LifecycleSucceeded), "", o.targetGeneration, at))
    ensures t.status.state == if o.capability.Delete? then RsDeleted else RsReady
    ensures t.status.resourceID == r.id && t.status.observedGeneration == s.observedGeneration && t.status.updatedAt == at
    ensures StatusWellFormed(t.status)
  {
    hide CompletedConditions, StatusWellFormed;
    CompletedReconciles(r, s, o, at);
  }

  lemma ObservedReconciled(r: Resource, s: ResourceStatus, f: ObservedFacts, at: Time, preserve: bool, n: ResourceStatus)
    requires ObserveWith(r, s, f, at, preserve) == Ok(n) && StatusWellFormed(s)
    ensures Holds(n.conditions, CondReconciled) <==> Holds(s.conditions, CondReconciled) && !ReportsDrift(f)
    ensures !ReportsDrift(f) ==> FindCondition(n.conditions, CondReconciled) == FindCondition(s.conditions, CondReconciled)
    ensures n.state == ObservedState(s, f, preserve) && n.observedGeneration == s.observedGeneration
  {
    hide Upsert, ByKind, UniqueKinds, ConditionsFit, ObservedConditions, ConditionValid;
    FitsLater(s.conditions, s.observedGeneration, s.updatedAt, s.observedGeneration, at);
    ObservedFactsFit(s, f, at);
  }

  /** A finished operation in its resource's cell. A success of a create or update of a
      type that requires outputs must bring the snapshot along. */
  lemma FinishedCell(c: Catalog, rec: Record, o: Operation, updates: nat, drifted: bool, published: Option<Published>,
                     finish: Finish, at: Time, t: Transition, now: Option<Published>)
    requires CellOk(c, rec, o, updates, drifted, published)
    requires BuildFinishEvidence(o, rec.resource, rec.status, finish, at) == Ok(t)
    requires now == published ||
             (finish.succeeded && now.Some? && now.value.snapshot.observedGeneration == o.targetGeneration)
    requires finish.succeeded && !o.capability.Delete? && RequiresPublishedOutputs(c, rec.resource.typeRef) ==>
               now.Some? && now.value.snapshot.observedGeneration == o.targetGeneration &&
               Meets(c[rec.resource.typeRef].outputs.value, now.value.snapshot.values)
    ensures CellOk(c, rec.(status := t.status), t.operation, updates,
                   if finish.succeeded then ReportsDrift(Sanitized(finish.facts)) else drifted || ReportsDrift(Sanitized(finish.facts)), now)
    ensures t.operation.IsTerminal() && (finish.succeeded <==> t.operation.state.OpSucceeded?)
    ensures t.operation == o.(state := t.operation.state, completedAt := t.operation.completedAt, failure := t.operation.failure)
    ensures t.status.state.RsDeleted? <==> finish.succeeded && o.capability.Delete?
  {
    hide Coherent, Tells, StatusWellFormed, Complete, Fail, ObserveWith;
    FinishKeepsCoherent(rec, o, finish, at);
    FinishTells(rec, o, finish, at, t);
    EngineOutcomeState(o, rec.resource, rec.status, finish, at);
    TargetIsObserved(World(rec.resource, rec.status, Some(o)));
    FinishedStatus(rec, o, finish, at, t);
  }

  lemma FinishKeepsCoherent(rec: Record, o: Operation, finish: Finish, at: Time)
    requires Coherent(World(rec.resource, rec.status, Some(o)))
    requires BuildFinishEvidence(o, rec.resource, rec.status, finish, at).Ok?
    ensures var t := BuildFinishEvidence(o, rec.resource, rec.status, finish, at).value;
            Coherent(World(rec.resource, t.status, Some(t.operation)))
    ensures !o.capability.OtherCapability? && !o.IsTerminal() && EngineOutcome(o, rec.resource, rec.status, finish, at).Ok?
    ensures StatusWellFormed(EngineOutcome(o, rec.resource, rec.status, finish, at).value.status)
  {
    hide Upsert, ByKind, UniqueKinds, ConditionsFit, CompletedConditions, FailedConditions, InternalEventID, ObservedConditions;
    var w := World(rec.resource, rec.status, Some(o));
    if finish.succeeded {
      CompleteKeepsCoherent(w, DoComplete(InternalEventID(o.id, "succeeded"), at));
    } else {
      FailKeepsCoherent(w, DoFail(finish.reason, finish.message, InternalEventID(o.id, "failed"), at));
    }
    var done := EngineOutcome(o, rec.resource, rec.status, finish, at).value;
    var facts := Sanitized(finish.facts);
    if HasFacts(facts) {
      ObserveKeepsCoherent(World(rec.resource, done.status, Some(done.operation)), DoPostObserve(facts, at));
    }
  }

  lemma FinishTells(rec: Record, o: Operation, finish: Finish, at: Time, t: Transition)
    requires Coherent(World(rec.resource, rec.status, Some(o))) && Tells(World(rec.resource, rec.status, Some(o)))
    requires BuildFinishEvidence(o, rec.resource, rec.status, finish, at) == Ok(t)
    ensures Tells(World(rec.resource, t.status, Some(t.operation)))
  {
    hide Coherent, Tells, Complete, Fail, ObserveWith, InternalEventID;
    var w := World(rec.resource, rec.status, Some(o));
    var done := EngineOutcome(o, rec.resource, rec.status, finish, at).value;
    var ended := World(rec.resource, done.status, Some(done.operation));
    if finish.succeeded {
      CompleteKeepsCoherent(w, DoComplete(InternalEventID(o.id, "succeeded"), at));
      CompleteTells(w, DoComplete(InternalEventID(o.id, "succeeded"), at), ended);
    } else {
      FailKeepsCoherent(w, DoFail(finish.reason, finish.message, InternalEventID(o.id, "failed"), at));
      FailTells(w, DoFail(finish.reason, finish.message, InternalEventID(o.id, "failed"), at), ended);
    }
    var facts := Sanitized(finish.facts);
    if HasFacts(facts) {
      ObserveTells(ended, DoPostObserve(facts, at), World(rec.resource, t.status, Some(t.operation)));
    }
  }

  /** The lifecycle state and the Reconciled condition after a finish. */
  lemma FinishedStatus(rec: Record, o: Operation, finish: Finish, at: Time, t: Transition)
    requires EngineOutcome(o, rec.resource, rec.status, finish, at).Ok?
    requires StatusWellFormed(EngineOutcome(o, rec.resource, rec.status, finish, at).value.status)
    requires BuildFinishEvidence(o, rec.resource, rec.status, finish, at) == Ok(t)
    requires rec.resource.generation == o.targetGeneration && !o.capability.OtherCapability?
    ensures t.status.observedGeneration == rec.status.observedGeneration
    ensures t.status.state.RsDeleted? <==> finish.succeeded && o.capability.Delete?
    ensures finish.succeeded ==>
              && (Holds(t.status.conditions, CondReconciled) <==> !ReportsDrift(Sanitized(finish.facts)))
              && (!ReportsDrift(Sanitized(finish.facts)) ==>
                    && FindCondition(t.status.conditions, CondReconciled).Some?
                    && FindCondition(t.status.conditions, CondReconciled).value.observedGeneration == o.targetGeneration)
  {
    hide Complete, Fail, ObserveWith, StatusWellFormed, InternalEventID, ByKind;
    var done := EngineOutcome(o, rec.resource, rec.status, finish, at).value;
    if finish.succeeded {
      SucceededStatus(rec.resource, rec.status, o, InternalEventID(o.id, "succeeded"), at, done);
    } else {
      FailedOutcome(rec.resource, rec.status, o, finish.reason, finish.message, InternalEventID(o.id, "failed"), at, done);
    }
    var facts := Sanitized(finish.facts);
    if HasFacts(facts) {
      ObservedReconciled(rec.resource, done.status, facts, at, true, t.status);
    }
  }

  lemma FailedOutcome(r: Resource, s: ResourceStatus, o: Operation, reason: string, message: string, eventID: EventID, at: Time, t: Transition)
    requires Fail(r, s, o, reason, message, eventID, at) == Ok(t)
    ensures !t.status.state.RsDeleted? && t.status.observedGeneration == s.observedGeneration
  {
    hide FailedConditions, StatusWellFormed, Holds;
  }

  // ---------------------------------------------------------- passive observation

  lemma ObservedCell(c: Catalog, rec: Record, o: Operation, updates: nat, drifted: bool, published: Option<Published>,
                     f: ObservedFacts, at: Time, status: ResourceStatus)
    requires CellOk(c, rec, o, updates, drifted, published)
    requires ApplyObservation(rec.resource, rec.status, f, at) == Ok(status)
    ensures CellOk(c, rec.(status := status), o, updates, drifted || ReportsDrift(f), published)
    ensures o.IsTerminal()
    ensures status.state.RsDeleted? <==> rec.status.state.RsDeleted?
    ensures !status.state.RsDeleting? && !rec.status.state.RsDeleting?
  {
    hide Coherent, Tells, StatusWellFormed, ObserveWith;
    var w := World(rec.resource, rec.status, Some(o));
    ObserveKeepsCoherent(w, DoObserve(f, at));
    ObserveTells(w, DoObserve(f, at), World(rec.resource, status, Some(o)));
    CoherentStatus(w);
    ObservedReconciled(rec.resource, rec.status, f, at, false, status);
    ObservedAtRest(rec.resource, rec.status, f, at, status);
  }

  lemma CoherentStatus(w: World)
    requires Coherent(w)
    ensures StatusWellFormed(w.status)
    ensures w.latest.Some? ==> (w.latest.value.IsTerminal() <==> ActiveCapability(w.status).None?)
  {
  }

  lemma ObservedAtRest(r: Resource, s: ResourceStatus, f: ObservedFacts, at: Time, n: ResourceStatus)
    requires ObserveWith(r, s, f, at, false) == Ok(n)
    ensures ActiveCapability(s).None?
    ensures n.state == ObservedState(s, f, false)
  {
    hide ObservedConditions, StatusWellFormed;
  }
}
