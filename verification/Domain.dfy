/** Domain values: resources, operations, conditions and statuses, together with
    the checks their constructors make. The functions here say what each
    transition computes; the classes at the end mutate in place and are proved
    against them. */
module Domain {
  import opened Basics

  type ResourceID = string
  type OperationID = string
  type EventID = string

  datatype Capability = Create | Update | Delete | OtherCapability(name: string)

  predicate ValidCapability(c: Capability) {
    c.OtherCapability? ==>
      c.name != "" && !IsSpace(c.name[0]) && !IsSpace(c.name[|c.name| - 1])
  }

  datatype TypeRef = TypeRef(name: string, version: string)

  datatype OwnerRef = OwnerRef(kind: string, id: string)

  /** Desired configuration, compared by value only. */
  datatype Spec = Spec(document: string)

  datatype DomainError = Malformed | IllegalTransition

  // ---------------------------------------------------------------- resources

  datatype Resource = Resource(
    id: ResourceID,
    typeRef: TypeRef,
    owner: OwnerRef,
    generation: nat,
    spec: Spec,
    createdAt: Time,
    updatedAt: Time)

  function NewResource(id: ResourceID, typeRef: TypeRef, owner: OwnerRef, spec: Spec, at: Time):
    (r: Result<Resource, DomainError>)
  {
    if Blank(id) || Blank(typeRef.name) || Blank(typeRef.version) || Blank(owner.kind) || Blank(owner.id)
       || at == ZERO_TIME
    then Err(Malformed)
    else Ok(Resource(id, typeRef, owner, 1, spec, at, at))
  }

  /** A new desired revision: the only writer of `generation` and `spec`. */
  function UpdateSpec(r: Resource, spec: Spec, at: Time): (u: Result<Resource, DomainError>) {
    if at == ZERO_TIME || at < r.updatedAt || r.generation == MAX_UINT64
    then Err(Malformed)
    else Ok(r.(spec := spec, generation := r.generation + 1, updatedAt := at))
  }

  // --------------------------------------------------------------- operations

  datatype OperationState =
    | OpPending | OpRunning | OpSucceeded | OpFailed | OpCanceled | OpInvalid(text: string)

  datatype Phase =
    | Requested | Validating | Planning | Applying | Destroying | PhaseInvalid(text: string)

  datatype Failure = Failure(reason: string, message: string)

  datatype Operation = Operation(
    id: OperationID,
    resourceID: ResourceID,
    capability: Capability,
    targetGeneration: nat,
    retryOf: OperationID,
    state: OperationState,
    phase: Phase,
    requestedAt: Time,
    startedAt: Time,
    phaseChangedAt: Time,
    completedAt: Time,
    failure: Option<Failure>)
  {
    predicate IsTerminal() {
      state.OpSucceeded? || state.OpFailed? || state.OpCanceled?
    }
  }

  function NewOperation(id: OperationID, resourceID: ResourceID, capability: Capability,
                        targetGeneration: nat, requestedAt: Time, retryOf: OperationID):
    (r: Result<Operation, DomainError>)
  {
    if Blank(id) || Blank(resourceID) || !ValidCapability(capability) || targetGeneration == 0
       || requestedAt == ZERO_TIME || (Blank(retryOf) && retryOf != "") || retryOf == id
    then Err(Malformed)
    else Ok(Operation(id, resourceID, capability, targetGeneration, retryOf, OpPending, Requested,
                      requestedAt, ZERO_TIME, requestedAt, ZERO_TIME, None))
  }

  predicate CanAdvanceTo(o: Operation, next: Phase) {
    if o.state.OpPending? then o.phase.Requested? && next.Validating?
    else if !o.state.OpRunning? then false
    else match o.capability
      case Create | Update =>
        || (o.phase.Validating? && next.Planning?)
        || (o.phase.Planning? && next.Applying?)
      case Delete => o.phase.Validating? && next.Destroying?
      case OtherCapability(_) => false
  }

  predicate IsFinalPhase(o: Operation) {
    match o.capability
    case Create | Update => o.phase.Applying?
    case Delete => o.phase.Destroying?
    case OtherCapability(_) => false
  }

  predicate ValidTransitionTime(o: Operation, at: Time) {
    at != ZERO_TIME && o.requestedAt <= at && o.phaseChangedAt <= at
  }

  function AdvancePhase(o: Operation, next: Phase, at: Time): (r: Result<Operation, DomainError>) {
    if o.IsTerminal() || !CanAdvanceTo(o, next) then Err(IllegalTransition)
    else if !ValidTransitionTime(o, at) then Err(Malformed)
    else Ok(o.(state := OpRunning,
               startedAt := if o.state.OpPending? then at else o.startedAt,
               phase := next,
               phaseChangedAt := at))
  }

  function CompleteAs(o: Operation, state: OperationState, at: Time, failure: Option<Failure>):
    (r: Result<Operation, DomainError>)
  {
    if !ValidTransitionTime(o, at) then Err(Malformed)
    else Ok(o.(state := state, completedAt := at, failure := failure))
  }

  function Succeed(o: Operation, at: Time): (r: Result<Operation, DomainError>) {
    if !o.state.OpRunning? || !IsFinalPhase(o) then Err(IllegalTransition)
    else CompleteAs(o, OpSucceeded, at, None)
  }

  function FailOperation(o: Operation, reason: string, message: string, at: Time):
    (r: Result<Operation, DomainError>)
  {
    if !o.state.OpPending? && !o.state.OpRunning? then Err(IllegalTransition)
    else if Blank(reason) then Err(Malformed)
    else CompleteAs(o, OpFailed, at, Some(Failure(reason, message)))
  }

  function Cancel(o: Operation, at: Time): (r: Result<Operation, DomainError>) {
    if !o.state.OpPending? && !o.state.OpRunning? then Err(IllegalTransition)
    else CompleteAs(o, OpCanceled, at, None)
  }

  // -------------------------------------------------- operation persistence

  datatype OperationSnapshot = OperationSnapshot(
    id: OperationID,
    resourceID: ResourceID,
    capability: Capability,
    targetGeneration: nat,
    retryOf: OperationID,
    state: OperationState,
    phase: Phase,
    requestedAt: Time,
    startedAt: Time,
    phaseChangedAt: Time,
    completedAt: Time,
    failureReason: string,
    failureMessage: string)

  function Snapshot(o: Operation): OperationSnapshot {
    OperationSnapshot(o.id, o.resourceID, o.capability, o.targetGeneration, o.retryOf, o.state, o.phase,
                      o.requestedAt, o.startedAt, o.phaseChangedAt, o.completedAt,
                      if o.failure.Some? then o.failure.value.reason else "",
                      if o.failure.Some? then o.failure.value.message else "")
  }

  function Restore(s: OperationSnapshot): (r: Result<Operation, DomainError>) {
    var o :- NewOperation(s.id, s.resourceID, s.capability, s.targetGeneration, s.requestedAt, s.retryOf);
    var terminal := s.state.OpSucceeded? || s.state.OpFailed? || s.state.OpCanceled?;
    if s.phaseChangedAt == ZERO_TIME || s.phaseChangedAt < s.requestedAt then Err(Malformed)
    else if s.state.OpInvalid? || s.phase.PhaseInvalid? then Err(Malformed)
    else if s.state.OpPending? &&
            (!s.phase.Requested? || s.startedAt != ZERO_TIME || s.completedAt != ZERO_TIME) then Err(Malformed)
    else if (s.state.OpRunning? || s.state.OpSucceeded?) &&
            (s.startedAt == ZERO_TIME || s.startedAt < s.requestedAt) then Err(Malformed)
    else if (s.state.OpFailed? || s.state.OpCanceled?) &&
            s.startedAt != ZERO_TIME && s.startedAt < s.requestedAt then Err(Malformed)
    else if terminal != (s.completedAt != ZERO_TIME) then Err(Malformed)
    else if terminal && s.completedAt < s.phaseChangedAt then Err(Malformed)
    else if s.state.OpFailed? && Blank(s.failureReason) then Err(Malformed)
    else if !s.state.OpFailed? && (s.failureReason != "" || s.failureMessage != "") then Err(Malformed)
    else Ok(o.(state := s.state,
               phase := s.phase,
               startedAt := s.startedAt,
               phaseChangedAt := s.phaseChangedAt,
               completedAt := s.completedAt,
               failure := if s.state.OpFailed? then Some(Failure(s.failureReason, s.failureMessage)) else None))
  }

  // ------------------------------------------------------------ observed facts

  datatype Presence = Present | PresenceNotFound | PresenceUnknown | PresenceUnset | PresenceInvalid(text: string)
  datatype Readiness = FactReady | FactNotReady | ReadinessUnknown | ReadinessUnset | ReadinessInvalid(text: string)
  datatype Drift = InSync | Drifted | DriftUnknown | DriftUnset | DriftInvalid(text: string)

  datatype ObservedFacts = ObservedFacts(presence: Presence, readiness: Readiness, drift: Drift)

  const NO_FACTS := ObservedFacts(PresenceUnset, ReadinessUnset, DriftUnset)

  /** Well-formed backend facts. */
  predicate FactsValid(f: ObservedFacts) {
    && (f.presence.Present? || f.presence.PresenceNotFound? || f.presence.PresenceUnknown?)
    && (f.readiness.FactReady? || f.readiness.FactNotReady? || f.readiness.ReadinessUnknown?)
    && (f.drift.InSync? || f.drift.Drifted? || f.drift.DriftUnknown?)
    && (!f.presence.Present? ==> f.readiness.ReadinessUnknown?)
  }

  // ------------------------------------------------------ conditions and status

  datatype ConditionStatus = CTrue | CFalse | CUnknown | CInvalid(text: string)

  datatype ConditionType =
    | CondReady | CondReconciled | CondReconciling | CondOperationFailed | CondDeleted
    | CondDependenciesReady | CondDrifted | CondOther(name: string)

  /** Why a condition or event holds: one of the source's fixed codes, or text a
      caller supplied. */
  datatype Reason = Known(code: ReasonCode) | Given(text: string)

  datatype ReasonCode =
    | RequestedFor(capability: Capability, retry: bool) | SucceededFor(capability: Capability)
    | EnteredPhase(phase: Phase)
    | PreviouslyReady | LifecycleRequested | LifecycleSucceeded | NoFailure | OperationFailed
    | CreatePending | DeletePending | ResourceCreated | ResourceDeleted | DestructionSucceeded
    | NewerGenerationPending
    | ResourceNotFound | ResourceReady | ResourceNotReady | ReadinessIsUnknown
    | DriftInSync | DriftDetected | DriftIsUnknown
    | WaitingForDependencies | DependencyFailed | DependencyInvalid | DependenciesSatisfied

  predicate ReasonMissing(r: Reason) {
    r.Given? && Blank(r.text)
  }

  datatype Condition = Condition(
    kind: ConditionType,
    status: ConditionStatus,
    reason: Reason,
    message: string,
    observedGeneration: nat,
    lastTransitionAt: Time)

  predicate ConditionValid(c: Condition) {
    && (c.kind.CondOther? ==> !Blank(c.kind.name))
    && !c.status.CInvalid?
    && !ReasonMissing(c.reason)
    && c.lastTransitionAt != ZERO_TIME
  }

  datatype ResourceState =
    | RsUnknown | RsPending | RsReady | RsDeleting | RsDeleted | RsFailed | RsInvalid(text: string)

  datatype ResourceStatus = ResourceStatus(
    resourceID: ResourceID,
    observedGeneration: nat,
    state: ResourceState,
    conditions: seq<Condition>,
    updatedAt: Time)

  predicate UniqueKinds(cs: seq<Condition>) {
    forall i, j :: 0 <= i < j < |cs| ==> cs[i].kind != cs[j].kind
  }

  /** Each condition is valid and observes nothing newer than the status itself. */
  predicate ConditionsFit(cs: seq<Condition>, generation: nat, at: Time) {
    forall i :: 0 <= i < |cs| ==>
      ConditionValid(cs[i]) && cs[i].observedGeneration <= generation && cs[i].lastTransitionAt <= at
  }

  predicate StatusWellFormed(s: ResourceStatus) {
    && !Blank(s.resourceID)
    && !s.state.RsInvalid?
    && s.updatedAt != ZERO_TIME
    && UniqueKinds(s.conditions)
    && ConditionsFit(s.conditions, s.observedGeneration, s.updatedAt)
  }

  function NewResourceStatus(id: ResourceID, generation: nat, state: ResourceState,
                             conditions: seq<Condition>, at: Time):
    (r: Result<ResourceStatus, DomainError>)
  {
    var s := ResourceStatus(id, generation, state, conditions, at);
    if StatusWellFormed(s) then Ok(s) else Err(Malformed)
  }

  // -------------------------------------------------------------------- events

  datatype EventKind = RequestedEvent | PhaseChangedEvent | SucceededEvent | FailedEvent

  datatype Event = Event(
    id: EventID,
    resourceID: ResourceID,
    operationID: OperationID,
    generation: nat,
    kind: EventKind,
    reason: Reason,
    message: string,
    occurredAt: Time)

  function NewEvent(id: EventID, resourceID: ResourceID, operationID: OperationID, generation: nat,
                    kind: EventKind, reason: Reason, message: string, at: Time):
    (r: Result<Event, DomainError>)
  {
    if Blank(id) || Blank(resourceID) || generation == 0 || ReasonMissing(reason) || at == ZERO_TIME
    then Err(Malformed)
    else Ok(Event(id, resourceID, operationID, generation, kind, reason, message, at))
  }
}
