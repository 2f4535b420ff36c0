/** Every run of the lifecycle engine over one resource: the status and the latest
    operation always tell the same story. */
module LifecycleRuns {
  import opened Basics
  import opened Domain
  import OperationRuns
  import opened Lifecycle
  import opened LifecycleFacts

  /** One resource as the engine's callers hold it. */
  datatype World = World(resource: Resource, status: ResourceStatus, latest: Option<Operation>)

  datatype Step =
    | DoUpdateSpec(spec: Spec, at: Time)
    | DoRequest(supported: set<Capability>, passLatest: bool, capability: Capability,
                operationID: OperationID, eventID: EventID, at: Time)
    | DoAdvance(next: Phase, eventID: EventID, at: Time)
    | DoComplete(eventID: EventID, at: Time)
    | DoFail(reason: string, message: string, eventID: EventID, at: Time)
    | DoObserve(facts: ObservedFacts, at: Time)
    | DoPostObserve(facts: ObservedFacts, at: Time)
    | DoDependency(condition: ConditionStatus, why: Reason, detail: string, at: Time)

  function Take(w: World, t: Result<Transition, EngineError>): Result<World, EngineError> {
    match t
    case Ok(x) => Ok(World(w.resource, x.status, Some(x.operation)))
    case Err(e) => Err(e)
  }

  function TakeStatus(w: World, t: Result<ResourceStatus, EngineError>): Result<World, EngineError> {
    match t
    case Ok(s) => Ok(w.(status := s))
    case Err(e) => Err(e)
  }

  /** One engine call. The dependency condition is only written at or after the status time. */
  function Attempt(w: World, step: Step): Result<World, EngineError> {
    match step
    case DoUpdateSpec(spec, at) =>
      var u := UpdateSpec(w.resource, spec, at);
      if u.Ok? then Ok(w.(resource := u.value)) else Err(InvalidTransition)
    case DoRequest(supported, passLatest, capability, operationID, eventID, at) =>
      Take(w, Request(w.resource, w.resource.typeRef, supported, w.status,
                      if passLatest then w.latest else None, capability, operationID, eventID, at))
    case DoAdvance(next, eventID, at) =>
      if w.latest.None? then Err(InvalidTransition)
      else Take(w, Advance(w.resource, w.status, w.latest.value, next, eventID, at))
    case DoComplete(eventID, at) =>
      if w.latest.None? then Err(InvalidTransition)
      else Take(w, Complete(w.resource, w.status, w.latest.value, eventID, at))
    case DoFail(reason, message, eventID, at) =>
      if w.latest.None? then Err(InvalidTransition)
      else Take(w, Fail(w.resource, w.status, w.latest.value, reason, message, eventID, at))
    case DoObserve(facts, at) =>
      TakeStatus(w, ApplyObservation(w.resource, w.status, facts, at))
    case DoPostObserve(facts, at) =>
      TakeStatus(w, ApplyPostOperationObservation(w.resource, w.status, facts, at))
    case DoDependency(condition, why, detail, at) =>
      if at < w.status.updatedAt then Err(InvalidTransition)
      else TakeStatus(w, SetDependencyCondition(w.status, condition, why, detail, at))
  }

  /** A refused call changes nothing. */
  function Play(w: World, steps: seq<Step>): World
    decreases |steps|
  {
    if steps == [] then w
    else
      var r := Attempt(w, steps[0]);
      Play(if r.Ok? then r.value else w, steps[1..])
  }

  /** A new resource before its first request. */
  predicate Fresh(w: World) {
    && NewResource(w.resource.id, w.resource.typeRef, w.resource.owner, w.resource.spec, w.resource.createdAt)
       == Ok(w.resource)
    && NewResourceStatus(w.resource.id, 0, RsUnknown, [], w.resource.createdAt) == Ok(w.status)
    && w.latest.None?
  }

  /** The status and the latest operation agree on whether work is in progress, on
      which capability, and on the generation it targets. */
  predicate Agreement(w: World) {
    && (var active := w.latest.Some? && !w.latest.value.IsTerminal();
        && (active <==> Holds(w.status.conditions, CondReconciling))
        && (active <==> ActiveCapability(w.status).Some?)
        && (active ==> ActiveCapability(w.status) == Some(w.latest.value.capability)))
    && (w.latest.Some? ==> w.latest.value.targetGeneration == w.status.observedGeneration)
  }

  /** Agreement, strengthened until every engine call keeps it. */
  predicate Coherent(w: World) {
    && Agreement(w)
    && StatusWellFormed(w.status)
    && w.status.resourceID == w.resource.id
    && w.status.observedGeneration <= w.resource.generation
    && 1 <= w.resource.generation
    && w.resource.updatedAt != ZERO_TIME
    && (w.latest.None? ==> w.status.observedGeneration == 0)
    && (w.latest.Some? ==> OperationFits(w.latest.value, w))
    && (Holds(w.status.conditions, CondReconciled) ==> w.latest.Some? && w.latest.value.state.OpSucceeded?)
  }

  predicate OperationFits(o: Operation, w: World) {
    && OperationRuns.Sound(o)
    && o.resourceID == w.resource.id
    && !o.capability.OtherCapability?
    && o.phaseChangedAt <= w.status.updatedAt
    && o.completedAt <= w.status.updatedAt
  }

  lemma FreshIsCoherent(w: World)
    requires Fresh(w)
    ensures Coherent(w)
  {
  }

  lemma RequestKeepsCoherent(w: World, step: Step)
    requires Coherent(w) && step.DoRequest?
    ensures Attempt(w, step).Ok? ==> Coherent(Attempt(w, step).value)
    ensures Attempt(w, step) != Err(StatusRejected)
  {
    hide Upsert, ByKind, UniqueKinds, ConditionsFit, RequestConditions;
    var latest := if step.passLatest then w.latest else None;
    var retry := IsRetry(latest, step.capability);
    var target := if retry then latest.value.targetGeneration else w.resource.generation;
    var made := NewOperation(step.operationID, w.resource.id, step.capability, target, step.at,
                             if retry then latest.value.id else "");
    if made.Ok? && !step.capability.OtherCapability? && step.at != ZERO_TIME && w.status.updatedAt <= step.at {
      FitsLater(w.status.conditions, w.status.observedGeneration, w.status.updatedAt, w.status.observedGeneration, step.at);
      RequestFacts(w.status, made.value, retry, step.at);
    }
  }

  lemma AdvanceKeepsCoherent(w: World, step: Step)
    requires Coherent(w) && step.DoAdvance?
    ensures Attempt(w, step).Ok? ==> Coherent(Attempt(w, step).value)
    ensures Attempt(w, step) != Err(StatusRejected)
  {
    hide Upsert, ByKind, UniqueKinds, ConditionsFit;
    if w.status.updatedAt <= step.at {
      FitsLater(w.status.conditions, w.status.observedGeneration, w.status.updatedAt, w.status.observedGeneration, step.at);
    }
  }

  lemma CompleteKeepsCoherent(w: World, step: Step)
    requires Coherent(w) && step.DoComplete?
    ensures Attempt(w, step).Ok? ==> Coherent(Attempt(w, step).value)
    ensures Attempt(w, step) != Err(StatusRejected)
  {
    hide Upsert, ByKind, UniqueKinds, ConditionsFit, CompletedConditions;
    if w.latest.Some? && w.status.updatedAt <= step.at && step.at != ZERO_TIME {
      FitsLater(w.status.conditions, w.status.observedGeneration, w.status.updatedAt, w.status.observedGeneration, step.at);
      CompletedFacts(w.resource, w.status, w.latest.value, step.at);
    }
  }

  lemma FailKeepsCoherent(w: World, step: Step)
    requires Coherent(w) && step.DoFail?
    ensures Attempt(w, step).Ok? ==> Coherent(Attempt(w, step).value)
    ensures Attempt(w, step) != Err(StatusRejected)
  {
    hide Upsert, ByKind, UniqueKinds, ConditionsFit, FailedConditions;
    if w.latest.Some? && w.status.updatedAt <= step.at && step.at != ZERO_TIME && !Blank(step.reason) {
      FitsLater(w.status.conditions, w.status.observedGeneration, w.status.updatedAt, w.status.observedGeneration, step.at);
      FailedFacts(w.resource, w.status, w.latest.value, step.reason, step.message, step.at);
    }
  }

  lemma ObserveKeepsCoherent(w: World, step: Step)
    requires Coherent(w) && (step.DoObserve? || step.DoPostObserve?)
    ensures Attempt(w, step).Ok? ==> Coherent(Attempt(w, step).value)
    ensures Attempt(w, step) != Err(StatusRejected)
  {
    hide Upsert, ByKind, UniqueKinds, ConditionsFit, ObservedConditions;
    if w.status.updatedAt <= step.at && step.at != ZERO_TIME {
      FitsLater(w.status.conditions, w.status.observedGeneration, w.status.updatedAt, w.status.observedGeneration, step.at);
      ObservedFactsFit(w.status, step.facts, step.at);
    }
  }

  lemma DependencyKeepsCoherent(w: World, step: Step)
    requires Coherent(w) && step.DoDependency?
    ensures Attempt(w, step).Ok? ==> Coherent(Attempt(w, step).value)
    ensures !step.condition.CInvalid? && !ReasonMissing(step.why) ==> Attempt(w, step) != Err(StatusRejected)
  {
    hide Upsert, ByKind, UniqueKinds, ConditionsFit;
    if w.status.updatedAt <= step.at {
      FitsLater(w.status.conditions, w.status.observedGeneration, w.status.updatedAt, w.status.observedGeneration, step.at);
    }
  }

  lemma StepKeepsCoherent(w: World, step: Step)
    requires Coherent(w)
    ensures Attempt(w, step).Ok? ==> Coherent(Attempt(w, step).value)
    ensures step.DoDependency? && !step.condition.CInvalid? && !ReasonMissing(step.why) ==>
              Attempt(w, step) != Err(StatusRejected)
    ensures !step.DoDependency? ==> Attempt(w, step) != Err(StatusRejected)
  {
    hide Upsert, ByKind, UniqueKinds, ConditionsFit, Request, Advance, Complete, Fail, ObserveWith, SetDependencyCondition;
    match step
    case DoUpdateSpec(_, _) =>
    case DoRequest(_, _, _, _, _, _) => RequestKeepsCoherent(w, step);
    case DoAdvance(_, _, _) => AdvanceKeepsCoherent(w, step);
    case DoComplete(_, _) => CompleteKeepsCoherent(w, step);
    case DoFail(_, _, _, _) => FailKeepsCoherent(w, step);
    case DoObserve(_, _) => ObserveKeepsCoherent(w, step);
    case DoPostObserve(_, _) => ObserveKeepsCoherent(w, step);
    case DoDependency(_, _, _, _) => DependencyKeepsCoherent(w, step);
  }

  /** Every call leaves the observed generation where it was or moves it up to the desired one. */
  lemma StepMovesGenerationForward(w: World, step: Step)
    requires Coherent(w) && Attempt(w, step).Ok?
    ensures var n := Attempt(w, step).value;
            && w.status.observedGeneration <= n.status.observedGeneration <= n.resource.generation
            && w.resource.generation <= n.resource.generation
  {
    hide Upsert, ByKind, UniqueKinds, ConditionsFit, RequestConditions, CompletedConditions, FailedConditions, ObservedConditions;
  }

  /** Coherence, a growing observed generation and one-to-one condition kinds over
      every run, including the calls that are refused. */
  lemma {:induction false} EveryRunIsCoherent(w: World, steps: seq<Step>)
    requires Coherent(w)
    ensures Coherent(Play(w, steps))
    ensures w.status.observedGeneration <= Play(w, steps).status.observedGeneration <= Play(w, steps).resource.generation
    decreases |steps|
  {
    hide Coherent, Attempt;
    if steps == [] {
      assert Coherent(w) ==> w.status.observedGeneration <= w.resource.generation by { CoherentBounds(w); }
    } else {
      var r := Attempt(w, steps[0]);
      StepKeepsCoherent(w, steps[0]);
      if r.Ok? {
        StepMovesGenerationForward(w, steps[0]);
      }
      EveryRunIsCoherent(if r.Ok? then r.value else w, steps[1..]);
    }
  }

  lemma CoherentBounds(w: World)
    requires Coherent(w)
    ensures w.status.observedGeneration <= w.resource.generation
  {
  }

  /** In every state reached from a new resource, the operation is in progress exactly
      when Reconciling is true, exactly when the status says so, with the same
      capability and generation, and the status constructor then rejects nothing
      the engine builds. */
  lemma EveryRunAgrees(w: World, steps: seq<Step>, next: Step)
    requires Fresh(w)
    ensures var n := Play(w, steps);
            && Agreement(n) && UniqueKinds(n.status.conditions)
            && (!next.DoDependency? ==> Attempt(n, next) != Err(StatusRejected))
  {
    hide Attempt, Play, StatusWellFormed, Agreement, UniqueKinds, OperationFits;
    assert Coherent(w) by { FreshIsCoherent(w); }
    EveryRunIsCoherent(w, steps);
    StepKeepsCoherent(Play(w, steps), next);
    WellFormedKinds(Play(w, steps).status);
  }

  lemma WellFormedKinds(s: ResourceStatus)
    requires StatusWellFormed(s)
    ensures UniqueKinds(s.conditions)
  {
  }

  // ----------------------------------------------------------- failed deletes

  /** No step of the run tries to finish the operation. */
  predicate NoOutcome(steps: seq<Step>) {
    forall i :: 0 <= i < |steps| ==> !steps[i].DoComplete? && !steps[i].DoFail?
  }

  lemma DeletingStep(w: World, step: Step)
    requires Coherent(w) && w.status.state.RsDeleting? && !step.DoComplete? && !step.DoFail?
    requires Attempt(w, step).Ok?
    ensures var n := Attempt(w, step).value;
            && n.status.state.RsDeleting?
            && Holds(n.status.conditions, CondReady) == Holds(w.status.conditions, CondReady)
  {
    hide ByKind, UniqueKinds, ConditionsFit, RequestConditions, CompletedConditions, FailedConditions, ObservedConditions;
  }

  lemma {:induction false} DeletingRun(w: World, steps: seq<Step>)
    requires Coherent(w) && w.status.state.RsDeleting? && NoOutcome(steps)
    ensures var n := Play(w, steps);
            && n.status.state.RsDeleting?
            && Holds(n.status.conditions, CondReady) == Holds(w.status.conditions, CondReady)
    decreases |steps|
  {
    hide Coherent, Attempt, Holds;
    if steps != [] {
      var r := Attempt(w, steps[0]);
      StepKeepsCoherent(w, steps[0]);
      if r.Ok? {
        DeletingStep(w, steps[0]);
      }
      DeletingRun(if r.Ok? then r.value else w, steps[1..]);
    }
  }

  /** A failed delete gives back what the request found: Ready when the resource was
      Ready, and otherwise Ready exactly when its Ready condition was true, whatever
      phases, dependency conditions and refused calls came between. */
  lemma FailedDeleteRestores(w: World, request: Step, between: seq<Step>, failure: Step)
    requires Coherent(w) && request.DoRequest? && request.capability.Delete? && Attempt(w, request).Ok?
    requires NoOutcome(between) && failure.DoFail?
    requires Attempt(Play(Attempt(w, request).value, between), failure).Ok?
    ensures w.status.state.RsReady? || w.status.state.RsFailed?
    ensures var n := Attempt(Play(Attempt(w, request).value, between), failure).value;
            n.status.state == if w.status.state.RsReady? || Holds(w.status.conditions, CondReady) then RsReady else RsFailed
  {
    hide Upsert, ByKind, UniqueKinds, ConditionsFit;
    RequestKeepsCoherent(w, request);
    DeleteRequestKeepsReady(w, request);
    var active := Attempt(w, request).value;
    DeletingRun(active, between);
    EveryRunIsCoherent(active, between);
    FailedStateFollowsReady(Play(active, between), failure);
  }

  lemma DeleteRequestKeepsReady(w: World, request: Step)
    requires Coherent(w) && request.DoRequest? && request.capability.Delete? && Attempt(w, request).Ok?
    ensures w.status.state.RsReady? || w.status.state.RsFailed?
    ensures var n := Attempt(w, request).value;
            && n.status.state.RsDeleting?
            && (Holds(n.status.conditions, CondReady) <==> w.status.state.RsReady? || Holds(w.status.conditions, CondReady))
  {
    hide Upsert, ByKind, UniqueKinds, ConditionsFit, RequestConditions;
    var latest := if request.passLatest then w.latest else None;
    var o := Attempt(w, request).value.latest.value;
    FitsLater(w.status.conditions, w.status.observedGeneration, w.status.updatedAt, w.status.observedGeneration, request.at);
    RequestFacts(w.status, o, IsRetry(latest, Delete), request.at);
  }

  lemma FailedStateFollowsReady(w: World, failure: Step)
    requires Coherent(w) && w.status.state.RsDeleting? && failure.DoFail? && Attempt(w, failure).Ok?
    ensures Attempt(w, failure).value.status.state == if Holds(w.status.conditions, CondReady) then RsReady else RsFailed
  {
    hide Upsert, ByKind, UniqueKinds, ConditionsFit, FailedConditions;
  }

  /** Observing a Failed resource as ready breaks the expectation that its failed
      cleanup leaves it Failed: the state stays Failed, yet a delete that is then
      accepted and fails ends in Ready. */
  lemma ObservedFailureIsRevived(w: World, at: Time, operationID: OperationID, eventID: EventID, reason: string)
    requires Coherent(w) && w.status.state.RsFailed?
    requires at != ZERO_TIME && w.status.updatedAt <= at && w.resource.updatedAt <= at
    requires !Blank(operationID) && !Blank(eventID) && !Blank(reason)
    requires w.latest.Some? ==> w.latest.value.id != operationID
    ensures var seen := Attempt(w, DoObserve(ObservedFacts(Present, FactReady, DriftUnknown), at));
            && seen.Ok? && seen.value.status.state.RsFailed?
            && var asked := Attempt(seen.value, DoRequest({Delete}, true, Delete, operationID, eventID, at));
            && asked.Ok?
            && var failed := Attempt(asked.value, DoFail(reason, "", eventID, at));
            && failed.Ok? && failed.value.status.state.RsReady?
  {
    hide Coherent, Attempt, Holds;
    var observe := DoObserve(ObservedFacts(Present, FactReady, DriftUnknown), at);
    ObservingFailed(w, at);
    StepKeepsCoherent(w, observe);
    var seen := Attempt(w, observe).value;
    var request := DoRequest({Delete}, true, Delete, operationID, eventID, at);
    DeleteIsAccepted(seen, operationID, eventID, at);
    StepKeepsCoherent(seen, request);
    DeleteRequestKeepsReady(seen, request);
    var asked := Attempt(seen, request).value;
    FailureIsAccepted(asked, reason, eventID, at);
    FailedStateFollowsReady(asked, DoFail(reason, "", eventID, at));
  }

  lemma ObservingFailed(w: World, at: Time)
    requires Coherent(w) && w.status.state.RsFailed?
    requires at != ZERO_TIME && w.status.updatedAt <= at && w.resource.updatedAt <= at
    ensures var seen := Attempt(w, DoObserve(ObservedFacts(Present, FactReady, DriftUnknown), at));
            && seen.Ok? && seen.value.status.state.RsFailed? && Holds(seen.value.status.conditions, CondReady)
            && seen.value.latest == w.latest && seen.value.resource == w.resource && seen.value.status.updatedAt == at
  {
    hide UniqueKinds, ConditionsFit, ByKind;
    var f := ObservedFacts(Present, FactReady, DriftUnknown);
    FitsLater(w.status.conditions, w.status.observedGeneration, w.status.updatedAt, w.status.observedGeneration, at);
    ObservedFactsFit(w.status, f, at);
  }

  /** A delete of a Ready or Failed resource at rest is always accepted under a new identity. */
  lemma DeleteIsAccepted(w: World, operationID: OperationID, eventID: EventID, at: Time)
    requires Coherent(w) && (w.status.state.RsFailed? || (w.status.state.RsReady? && ActiveCapability(w.status).None?))
    requires at != ZERO_TIME && w.status.updatedAt <= at && w.resource.updatedAt <= at
    requires !Blank(operationID) && !Blank(eventID)
    requires w.latest.Some? ==> w.latest.value.id != operationID
    ensures var asked := Attempt(w, DoRequest({Delete}, true, Delete, operationID, eventID, at));
            asked.Ok? && asked.value.status.updatedAt == at
  {
    hide Upsert, ByKind, UniqueKinds, ConditionsFit, RequestConditions;
    var retry := IsRetry(w.latest, Delete);
    var target := if retry then w.latest.value.targetGeneration else w.resource.generation;
    var made := NewOperation(operationID, w.resource.id, Delete, target, at, if retry then w.latest.value.id else "");
    FitsLater(w.status.conditions, w.status.observedGeneration, w.status.updatedAt, w.status.observedGeneration, at);
    RequestFacts(w.status, made.value, retry, at);
  }

  /** An operation in progress can always be failed, at any time not before the status. */
  lemma FailureIsAccepted(w: World, reason: string, eventID: EventID, at: Time)
    requires Coherent(w) && ActiveCapability(w.status).Some?
    requires w.status.updatedAt <= at && !Blank(reason) && !Blank(eventID)
    ensures Attempt(w, DoFail(reason, "", eventID, at)).Ok?
  {
    hide Upsert, ByKind, UniqueKinds, ConditionsFit, FailedConditions;
    FitsLater(w.status.conditions, w.status.observedGeneration, w.status.updatedAt, w.status.observedGeneration, at);
    FailedFacts(w.resource, w.status, w.latest.value, reason, "", at);
  }
}
