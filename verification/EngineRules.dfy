/** When the engine accepts a call, in every coherent state: conditions on the request, the
    state of the resource and the latest operation that a caller can check beforehand. */
module EngineRules {
  import opened Basics
  import opened Domain
  import OperationRuns
  import opened Lifecycle
  import opened LifecycleFacts
  import opened LifecycleRuns

  /** No operation is in progress. */
  predicate AtRest(w: World) {
    w.latest.Some? ==> w.latest.value.IsTerminal()
  }

  /** The caller passes a failed operation of the capability it asks for again. */
  predicate Repeats(w: World, passLatest: bool, capability: Capability) {
    passLatest && w.latest.Some? && w.latest.value.state == OpFailed && w.latest.value.capability == capability
  }

  /** The states in which each capability may be asked for. */
  predicate StateAllows(w: World, capability: Capability, repeated: bool) {
    var pending := w.status.observedGeneration < w.resource.generation;
    match w.status.state
    case RsUnknown => capability == Create
    case RsReady => capability == Delete || (capability == Update && (pending || repeated))
    case RsFailed => capability == Delete || (capability == Create && repeated)
    case RsDeleted => capability == Create && pending
    case _ => false
  }

  /** A new call comes no earlier than anything recorded. */
  predicate InTime(w: World, at: Time) {
    0 < at && w.resource.updatedAt <= at && w.status.updatedAt <= at
  }

  lemma NamesAreSet(w: World)
    requires Coherent(w)
    ensures !Blank(w.resource.id)
  {
  }

  /** A request is accepted exactly for a supported capability of a resource at rest whose
      state allows it, under new identities and in time. */
  lemma RequestAcceptedExactly(w: World, supported: set<Capability>, passLatest: bool, capability: Capability,
                               operationID: OperationID, eventID: EventID, at: Time)
    requires Coherent(w)
    ensures Attempt(w, DoRequest(supported, passLatest, capability, operationID, eventID, at)).Ok? <==>
              && capability in supported && AtRest(w) && InTime(w, at)
              && StateAllows(w, capability, Repeats(w, passLatest, capability))
              && !Blank(operationID) && !Blank(eventID)
              && (passLatest && w.latest.Some? ==> w.latest.value.id != operationID)
  {
    hide Upsert, ByKind, UniqueKinds, ConditionsFit, RequestConditions, StatusWellFormed, Holds;
    var step := DoRequest(supported, passLatest, capability, operationID, eventID, at);
    RequestKeepsCoherent(w, step);
    NamesAreSet(w);
  }

  /** What an accepted request starts: a pending operation that targets the current
      generation, or repeats the failed one at its own. */
  lemma RequestStartsOperation(w: World, step: Step, n: World)
    requires Coherent(w) && step.DoRequest? && Attempt(w, step) == Ok(n)
    ensures var repeated := Repeats(w, step.passLatest, step.capability);
            && n.resource == w.resource && n.latest.Some?
            && n.latest.value ==
                 Operation(step.operationID, w.resource.id, step.capability,
                           if repeated then w.latest.value.targetGeneration else w.resource.generation,
                           if repeated then w.latest.value.id else "", OpPending, Requested, step.at, 0, step.at, 0, None)
            && n.status.state == (if step.capability == Create then RsPending else if step.capability == Delete then RsDeleting else RsReady)
            && n.status.observedGeneration == n.latest.value.targetGeneration && n.status.updatedAt == step.at
  {
    hide Upsert, ByKind, UniqueKinds, ConditionsFit, RequestConditions, StatusWellFormed, Holds;
  }

  /** The phase that follows, by capability. */
  function Following(o: Operation): Option<Phase> {
    if o.state == OpPending then Some(Validating)
    else match (o.phase, o.capability)
      case (Validating, Delete) => Some(Destroying)
      case (Validating, _) => Some(Planning)
      case (Planning, Create) => Some(Applying)
      case (Planning, Update) => Some(Applying)
      case _ => None
  }

  /** The phase in which the backend works, and success is possible. */
  predicate InFinalPhase(o: Operation) {
    o.state == OpRunning && o.phase == (if o.capability == Delete then Destroying else Applying)
  }

  lemma AdvanceAcceptedExactly(w: World, next: Phase, eventID: EventID, at: Time)
    requires Coherent(w)
    ensures Attempt(w, DoAdvance(next, eventID, at)).Ok? <==>
              w.latest.Some? && !AtRest(w) && Following(w.latest.value) == Some(next) && w.status.updatedAt <= at && !Blank(eventID)
    ensures Attempt(w, DoAdvance(next, eventID, at)).Ok? ==>
              var n := Attempt(w, DoAdvance(next, eventID, at)).value;
              && n.resource == w.resource && n.status.state == w.status.state && n.status.updatedAt == at
              && n.latest == Some(w.latest.value.(state := OpRunning, phase := next, phaseChangedAt := at,
                                                  startedAt := if w.latest.value.state == OpPending then at else w.latest.value.startedAt))
  {
    hide Upsert, ByKind, UniqueKinds, ConditionsFit, StatusWellFormed, Holds;
    AdvanceKeepsCoherent(w, DoAdvance(next, eventID, at));
    if w.latest.Some? && !AtRest(w) {
      PhaseTellsState(w);
    }
  }

  lemma PhaseTellsState(w: World)
    requires Coherent(w) && w.latest.Some? && !w.latest.value.IsTerminal()
    ensures w.latest.value.state == OpPending || w.latest.value.state == OpRunning
    ensures w.latest.value.state == OpPending ==> w.latest.value.phase == Requested
    ensures w.latest.value.phaseChangedAt <= w.status.updatedAt && 0 < w.latest.value.requestedAt <= w.latest.value.phaseChangedAt
    ensures w.latest.value.targetGeneration <= w.resource.generation && w.latest.value.targetGeneration != 0
  {
  }

  lemma CompleteAcceptedExactly(w: World, eventID: EventID, at: Time)
    requires Coherent(w)
    ensures Attempt(w, DoComplete(eventID, at)).Ok? <==>
              w.latest.Some? && InFinalPhase(w.latest.value) && w.status.updatedAt <= at && !Blank(eventID)
    ensures Attempt(w, DoComplete(eventID, at)).Ok? ==>
              var n := Attempt(w, DoComplete(eventID, at)).value;
              && n.resource == w.resource && n.status.updatedAt == at
              && n.status.state == (if w.latest.value.capability == Delete then RsDeleted else RsReady)
              && n.latest == Some(w.latest.value.(state := OpSucceeded, completedAt := at))
  {
    hide Upsert, ByKind, UniqueKinds, ConditionsFit, StatusWellFormed, Holds, CompletedConditions;
    CompleteKeepsCoherent(w, DoComplete(eventID, at));
  }

  lemma FailAcceptedExactly(w: World, reason: string, message: string, eventID: EventID, at: Time)
    requires Coherent(w)
    ensures Attempt(w, DoFail(reason, message, eventID, at)).Ok? <==>
              w.latest.Some? && !AtRest(w) && w.status.updatedAt <= at && !Blank(reason) && !Blank(eventID)
    ensures Attempt(w, DoFail(reason, message, eventID, at)).Ok? ==>
              var n := Attempt(w, DoFail(reason, message, eventID, at)).value;
              && n.resource == w.resource && n.status.updatedAt == at
              && n.latest == Some(w.latest.value.(state := OpFailed, completedAt := at, failure := Some(Failure(reason, message))))
  {
    hide Upsert, ByKind, UniqueKinds, ConditionsFit, StatusWellFormed, Holds, FailedConditions;
    FailKeepsCoherent(w, DoFail(reason, message, eventID, at));
  }

  /** Facts are taken in of a resource at rest only; a passive report moves it between
      Ready and Unknown, one that comes with an outcome leaves its state alone. */
  lemma ObserveAcceptedExactly(w: World, f: ObservedFacts, passive: bool, at: Time)
    requires Coherent(w)
    ensures var step := if passive then DoObserve(f, at) else DoPostObserve(f, at);
            && (Attempt(w, step).Ok? <==> AtRest(w) && InTime(w, at) && FactsValid(f))
            && (Attempt(w, step).Ok? ==>
                  var n := Attempt(w, step).value;
                  && n.resource == w.resource && n.latest == w.latest && n.status.updatedAt == at
                  && n.status.observedGeneration == w.status.observedGeneration
                  && n.status.state ==
                       if !passive || w.status.state == RsDeleted || w.status.state == RsFailed then w.status.state
                       else if f.presence == Present && f.readiness == FactReady then RsReady
                       else if f.presence == PresenceNotFound || f.readiness == FactNotReady then RsUnknown
                       else w.status.state)
  {
    hide Upsert, ByKind, UniqueKinds, ConditionsFit, StatusWellFormed, Holds, ObservedConditions;
    var step := if passive then DoObserve(f, at) else DoPostObserve(f, at);
    ObserveKeepsCoherent(w, step);
  }

  // ------------------------------------------------------------------- refusals

  /** What each refusal of a request stands for; the status constructor never objects. */
  predicate RequestCause(w: World, step: Step, e: EngineError)
    requires step.DoRequest?
  {
    match e
    case InvalidTransition =>
      || step.capability !in step.supported || !InTime(w, step.at) || !StateAllows(w, step.capability, Repeats(w, step.passLatest, step.capability))
      || (!AtRest(w) && !step.passLatest) || (w.latest.Some? && w.latest.value.id == step.operationID)
    case OperationActive => !AtRest(w)
    case OperationRejected => Blank(step.operationID)
    case EventRejected => Blank(step.eventID)
    case StatusRejected => false
  }

  lemma RequestRefused(w: World, step: Step)
    requires Coherent(w) && step.DoRequest? && Attempt(w, step).Err?
    ensures RequestCause(w, step, Attempt(w, step).error)
  {
    hide Upsert, ByKind, UniqueKinds, ConditionsFit, RequestConditions, StatusWellFormed, Holds;
    RequestKeepsCoherent(w, step);
    NamesAreSet(w);
  }

  /** What each refusal to advance, complete or fail stands for. */
  predicate MoveCause(w: World, step: Step, e: EngineError)
    requires step.DoAdvance? || step.DoComplete? || step.DoFail?
  {
    match e
    case InvalidTransition => w.latest.None? || step.at < w.status.updatedAt
    case OperationRejected =>
      w.latest.Some? &&
      (match step
       case DoAdvance(next, _, _) => AtRest(w) || Following(w.latest.value) != Some(next)
       case DoComplete(_, _) => !InFinalPhase(w.latest.value)
       case DoFail(reason, _, _, _) => AtRest(w) || Blank(reason)
       case _ => false)
    case EventRejected => Blank(step.eventID)
    case _ => false
  }

  lemma MoveRefused(w: World, step: Step)
    requires Coherent(w) && (step.DoAdvance? || step.DoComplete? || step.DoFail?) && Attempt(w, step).Err?
    ensures MoveCause(w, step, Attempt(w, step).error)
  {
    hide Upsert, ByKind, UniqueKinds, ConditionsFit, StatusWellFormed, Holds, CompletedConditions, FailedConditions;
    match step
    case DoAdvance(next, eventID, at) =>
      AdvanceKeepsCoherent(w, step);
      if w.latest.Some? && !AtRest(w) {
        PhaseTellsState(w);
      }
    case DoComplete(eventID, at) => CompleteKeepsCoherent(w, step);
    case DoFail(reason, message, eventID, at) => FailKeepsCoherent(w, step);
    case _ =>
  }

  /** The capability a status says is in progress. */
  function SaysInProgress(s: ResourceStatus): Option<Capability> {
    if s.state == RsPending then Some(Create)
    else if s.state == RsDeleting then Some(Delete)
    else if s.state == RsReady && Holds(s.conditions, CondReconciling) then Some(Update)
    else None
  }

  /** Records that do not belong together: of another type or resource, of a newer
      generation, or disagreeing on the work in progress. */
  predicate Foreign(r: Resource, declared: TypeRef, s: ResourceStatus, latest: Option<Operation>) {
    || r.typeRef != declared || s.resourceID != r.id || r.generation < s.observedGeneration
    || (latest.Some? && latest.value.resourceID != r.id)
    || (SaysInProgress(s) != None <==> (latest.Some? ==> latest.value.IsTerminal()))
    || (latest.Some? && !latest.value.IsTerminal()
        && (SaysInProgress(s) != Some(latest.value.capability) || latest.value.targetGeneration != s.observedGeneration))
  }

  lemma ForeignRequestRefused(r: Resource, declared: TypeRef, supported: set<Capability>, s: ResourceStatus, latest: Option<Operation>,
                              capability: Capability, operationID: OperationID, eventID: EventID, at: Time)
    requires Foreign(r, declared, s, latest)
    ensures Request(r, declared, supported, s, latest, capability, operationID, eventID, at) == Err(InvalidTransition)
  {
    hide RequestConditions, StatusWellFormed, Holds;
  }

  predicate ForeignOperation(r: Resource, s: ResourceStatus, o: Operation) {
    || s.resourceID != r.id || o.resourceID != r.id || r.generation < o.targetGeneration || s.observedGeneration != o.targetGeneration
    || (!o.IsTerminal() && SaysInProgress(s) != Some(o.capability))
  }

  lemma ForeignMoveRefused(r: Resource, s: ResourceStatus, o: Operation, next: Phase, reason: string, message: string, eventID: EventID, at: Time)
    requires ForeignOperation(r, s, o)
    ensures Advance(r, s, o, next, eventID, at) == Err(InvalidTransition)
    ensures Complete(r, s, o, eventID, at) == Err(InvalidTransition)
    ensures Fail(r, s, o, reason, message, eventID, at) == Err(InvalidTransition)
  {
    hide CompletedConditions, FailedConditions, StatusWellFormed, Holds;
  }
}
