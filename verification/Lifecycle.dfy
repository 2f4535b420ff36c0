/** The stateless lifecycle engine: requests, phase changes, terminal outcomes and
    observations, each computing the next operation, status and audit event. */
module Lifecycle {
  import opened Basics
  import opened Domain

  datatype EngineError = InvalidTransition | OperationActive | OperationRejected | StatusRejected | EventRejected

  datatype Transition = Transition(operation: Operation, status: ResourceStatus, event: Event)

  /** The identity of an engine-owned event. The source digests this text; the
      digest is opaque here and stands for it. */
  function InternalEventID(id: OperationID, transition: string): (e: EventID)
    ensures !Blank(e)
  {
    var e := "liftr-internal-" + id + ['\0'] + transition;
    assert e[0] == 'l' && !IsSpace(e[0]);
    e
  }

  // ------------------------------------------------------------- conditions

  /** The conditions by kind; the first one of a kind counts. */
  function ByKind(cs: seq<Condition>): map<ConditionType, Condition> {
    if cs == [] then map[] else ByKind(cs[1..])[cs[0].kind := cs[0]]
  }

  lemma {:induction false} ByKindDomain(cs: seq<Condition>, k: ConditionType)
    ensures k in ByKind(cs) <==> exists i :: 0 <= i < |cs| && cs[i].kind == k
  {
    if cs != [] {
      ByKindDomain(cs[1..], k);
      if k in ByKind(cs[1..]) {
        var i :| 0 <= i < |cs[1..]| && cs[1..][i].kind == k;
        assert cs[i + 1].kind == k;
      }
    }
  }

  function FindCondition(cs: seq<Condition>, kind: ConditionType): Option<Condition> {
    var m := ByKind(cs);
    if kind in m then Some(m[kind]) else None
  }

  predicate Holds(cs: seq<Condition>, kind: ConditionType) {
    var c := FindCondition(cs, kind);
    c.Some? && c.value.status.CTrue?
  }

  /** Replaces the first condition of the same kind, or appends. */
  function Upsert(cs: seq<Condition>, c: Condition): (r: seq<Condition>)
    ensures ByKind(r) == ByKind(cs)[c.kind := c]
    ensures UniqueKinds(cs) ==> UniqueKinds(r)
    ensures forall g, at {:trigger ConditionsFit(r, g, at)} ::
              ConditionsFit(cs, g, at) && ConditionValid(c) && c.observedGeneration <= g && c.lastTransitionAt <= at
              ==> ConditionsFit(r, g, at)
  {
    if cs == [] then [c]
    else if cs[0].kind == c.kind then
      assert ([c] + cs[1..])[1..] == cs[1..];
      [c] + cs[1..]
    else
      var rest := Upsert(cs[1..], c);
      UpsertRest(cs, c, rest);
      [cs[0]] + rest
  }

  /** What `Upsert` keeps when it passes over the first condition. */
  lemma {:induction false} UpsertRest(cs: seq<Condition>, c: Condition, rest: seq<Condition>)
    requires cs != [] && cs[0].kind != c.kind
    requires ByKind(rest) == ByKind(cs[1..])[c.kind := c]
    requires UniqueKinds(cs[1..]) ==> UniqueKinds(rest)
    requires forall g, at {:trigger ConditionsFit(rest, g, at)} ::
               ConditionsFit(cs[1..], g, at) && ConditionValid(c) && c.observedGeneration <= g && c.lastTransitionAt <= at
               ==> ConditionsFit(rest, g, at)
    ensures ByKind([cs[0]] + rest) == ByKind(cs)[c.kind := c]
    ensures UniqueKinds(cs) ==> UniqueKinds([cs[0]] + rest)
    ensures forall g, at {:trigger ConditionsFit([cs[0]] + rest, g, at)} ::
              ConditionsFit(cs, g, at) && ConditionValid(c) && c.observedGeneration <= g && c.lastTransitionAt <= at
              ==> ConditionsFit([cs[0]] + rest, g, at)
  {
    assert ([cs[0]] + rest)[1..] == rest;
    if UniqueKinds(cs) {
      ByKindDomain(cs[1..], cs[0].kind);
      ByKindDomain(rest, cs[0].kind);
    }
    forall g, at | ConditionsFit(cs, g, at) && ConditionValid(c) && c.observedGeneration <= g && c.lastTransitionAt <= at
      ensures ConditionsFit([cs[0]] + rest, g, at)
    {
      assert ConditionsFit(cs[1..], g, at);
      assert ConditionsFit(rest, g, at);
    }
  }

  /** Sets one condition. The source also rejects an ill-formed condition here; the
      status constructor, which every caller reaches, repeats that check. */
  function SetCondition(cs: seq<Condition>, kind: ConditionType, status: ConditionStatus, reason: Reason,
                        message: string, generation: nat, at: Time): seq<Condition>
  {
    Upsert(cs, Condition(kind, status, reason, message, generation, at))
  }

  function EnsurePreviouslyReady(cs: seq<Condition>, generation: nat, at: Time): seq<Condition> {
    if Holds(cs, CondReady) then cs
    else SetCondition(cs, CondReady, CTrue, Known(PreviouslyReady), "", generation, at)
  }

  function StatusOf(id: ResourceID, generation: nat, state: ResourceState, cs: seq<Condition>, at: Time):
    Result<ResourceStatus, EngineError>
  {
    var s := NewResourceStatus(id, generation, state, cs, at);
    if s.Ok? then Ok(s.value) else Err(StatusRejected)
  }

  function EventOf(id: EventID, resourceID: ResourceID, o: Operation, kind: EventKind, reason: Reason,
                   message: string, at: Time): Result<Event, EngineError>
  {
    var e := NewEvent(id, resourceID, o.id, o.targetGeneration, kind, reason, message, at);
    if e.Ok? then Ok(e.value) else Err(EventRejected)
  }

  // ------------------------------------------------- what a status represents

  /** The capability of the operation a status says is in progress, if any. */
  function ActiveCapability(s: ResourceStatus): Option<Capability> {
    match s.state
    case RsPending => Some(Create)
    case RsDeleting => Some(Delete)
    case RsReady => if Holds(s.conditions, CondReconciling) then Some(Update) else None
    case _ => None
  }

  predicate ResourceContextValid(r: Resource, declared: TypeRef, s: ResourceStatus, at: Time) {
    && r.typeRef == declared
    && s.resourceID == r.id
    && s.observedGeneration <= r.generation
    && at != ZERO_TIME && r.updatedAt <= at && s.updatedAt <= at
  }

  predicate OperationContextValid(r: Resource, s: ResourceStatus, o: Operation, at: Time) {
    && s.resourceID == r.id && o.resourceID == r.id
    && o.targetGeneration <= r.generation
    && s.observedGeneration == o.targetGeneration
    && at != ZERO_TIME && s.updatedAt <= at
    && (!o.IsTerminal() ==> ActiveCapability(s) == Some(o.capability))
  }

  predicate OperationSnapshotValid(r: Resource, s: ResourceStatus, latest: Option<Operation>) {
    var operationActive := latest.Some? && !latest.value.IsTerminal();
    && ActiveCapability(s).Some? == operationActive
    && (latest.Some? ==> latest.value.resourceID == r.id)
    && (operationActive ==>
          && ActiveCapability(s) == Some(latest.value.capability)
          && latest.value.targetGeneration == s.observedGeneration)
  }

  predicate RequestAllowed(r: Resource, s: ResourceStatus, capability: Capability, retry: bool) {
    match capability
    case Create =>
      || s.state.RsUnknown? || s.state.RsPending?
      || (s.state.RsFailed? && retry)
      || (s.state.RsDeleted? && s.observedGeneration < r.generation)
    case Update => s.state.RsReady? && (s.observedGeneration < r.generation || retry)
    case Delete => s.state.RsReady? || s.state.RsFailed?
    case OtherCapability(_) => false
  }

  // ----------------------------------------------------------------- request

  /** A request repeats the latest operation when that one failed with the same capability. */
  predicate IsRetry(latest: Option<Operation>, capability: Capability) {
    latest.Some? && latest.value.state.OpFailed? && latest.value.capability == capability
  }

  function RequestConditions(s: ResourceStatus, o: Operation, retry: bool, at: Time):
    seq<Condition>
  {
    var g := o.targetGeneration;
    var c0 := if s.state.RsReady? then EnsurePreviouslyReady(s.conditions, s.observedGeneration, at)
              else s.conditions;
    var c1 := SetCondition(c0, CondReconciling, CTrue, Known(RequestedFor(o.capability, retry)), "", g, at);
    var c2 := SetCondition(c1, CondReconciled, CFalse, Known(LifecycleRequested), "", g, at);
    var c3 := SetCondition(c2, CondOperationFailed, CFalse, Known(NoFailure), "", g, at);
    match o.capability
    case Create =>
      var c4 := SetCondition(c3, CondReady, CFalse, Known(CreatePending), "", g, at);
      SetCondition(c4, CondDeleted, CFalse, Known(CreatePending), "", g, at)
    case Delete => SetCondition(c3, CondDeleted, CFalse, Known(DeletePending), "", g, at)
    case _ => c3
  }

  function RequestedState(s: ResourceStatus, capability: Capability): ResourceState {
    match capability
    case Create => RsPending
    case Delete => RsDeleting
    case _ => s.state
  }

  function Request(r: Resource, declared: TypeRef, supported: set<Capability>, s: ResourceStatus,
                   latest: Option<Operation>, capability: Capability, operationID: OperationID,
                   eventID: EventID, at: Time): (t: Result<Transition, EngineError>)
  {
    if !ResourceContextValid(r, declared, s, at) then Err(InvalidTransition)
    else if capability !in supported || capability.OtherCapability? then Err(InvalidTransition)
    else if !OperationSnapshotValid(r, s, latest) then Err(InvalidTransition)
    else if latest.Some? && latest.value.id == operationID then Err(InvalidTransition)
    else if latest.Some? && !latest.value.IsTerminal() then Err(OperationActive)
    else
      var retry := IsRetry(latest, capability);
      var target := if retry then latest.value.targetGeneration else r.generation;
      if !RequestAllowed(r, s, capability, retry) then Err(InvalidTransition)
      else
        var made := NewOperation(operationID, r.id, capability, target, at, if retry then latest.value.id else "");
        if made.Err? then Err(OperationRejected)
        else
          var cs := RequestConditions(s, made.value, retry, at);
          var status :- StatusOf(r.id, target, RequestedState(s, capability), cs, at);
          var event :- EventOf(eventID, r.id, made.value, RequestedEvent, Known(RequestedFor(capability, retry)), "", at);
          Ok(Transition(made.value, status, event))
  }

  // ----------------------------------------------------------------- advance

  function Advance(r: Resource, s: ResourceStatus, o: Operation, next: Phase, eventID: EventID, at: Time):
    (t: Result<Transition, EngineError>)
  {
    if !OperationContextValid(r, s, o, at) then Err(InvalidTransition)
    else
      var moved := AdvancePhase(o, next, at);
      if moved.Err? then Err(OperationRejected)
      else
        var g := o.targetGeneration;
        var c0 := SetCondition(s.conditions, CondReconciling, CTrue, Known(EnteredPhase(next)), "", g, at);
        var c1 := SetCondition(c0, CondReconciled, CFalse, Known(EnteredPhase(next)), "", g, at);
        var status :- StatusOf(r.id, s.observedGeneration, s.state, c1, at);
        var event :- EventOf(eventID, r.id, o, PhaseChangedEvent, Known(EnteredPhase(next)), "", at);
        Ok(Transition(moved.value, status, event))
  }

  // ---------------------------------------------------------------- complete

  function CompletedConditions(r: Resource, s: ResourceStatus, o: Operation, at: Time):
    seq<Condition>
  {
    var g := o.targetGeneration;
    var c0 := SetCondition(s.conditions, CondReconciled, CTrue, Known(LifecycleSucceeded), "", g, at);
    var c1 := SetCondition(c0, CondOperationFailed, CFalse, Known(NoFailure), "", g, at);
    var c2 := match o.capability {
                case Create =>
                  var ready := SetCondition(c1, CondReady, CTrue, Known(LifecycleSucceeded), "", g, at);
                  SetCondition(ready, CondDeleted, CFalse, Known(ResourceCreated), "", g, at)
                case Update => SetCondition(c1, CondReady, CTrue, Known(LifecycleSucceeded), "", g, at)
                case Delete =>
                  var ready := SetCondition(c1, CondReady, CFalse, Known(ResourceDeleted), "", g, at);
                  SetCondition(ready, CondDeleted, CTrue, Known(DestructionSucceeded), "", g, at)
                case OtherCapability(_) => c1
              };
    if g < r.generation then
      var c3 := SetCondition(c2, CondReconciled, CFalse, Known(NewerGenerationPending), "", g, at);
      SetCondition(c3, CondReconciling, CFalse, Known(NewerGenerationPending), "", g, at)
    else
      SetCondition(c2, CondReconciling, CFalse, Known(LifecycleSucceeded), "", g, at)
  }

  function Complete(r: Resource, s: ResourceStatus, o: Operation, eventID: EventID, at: Time):
    (t: Result<Transition, EngineError>)
  {
    if !OperationContextValid(r, s, o, at) then Err(InvalidTransition)
    else
      var done := Succeed(o, at);
      if done.Err? then Err(OperationRejected)
      else if o.capability.OtherCapability? then Err(InvalidTransition)
      else
        var cs := CompletedConditions(r, s, o, at);
        var state := if o.capability.Delete? then RsDeleted else RsReady;
        var status :- StatusOf(r.id, s.observedGeneration, state, cs, at);
        var event :- EventOf(eventID, r.id, o, SucceededEvent, Known(SucceededFor(o.capability)), "", at);
        Ok(Transition(done.value, status, event))
  }

  // -------------------------------------------------------------------- fail

  function FailedConditions(r: Resource, s: ResourceStatus, o: Operation, reason: string, message: string, at: Time):
    seq<Condition>
  {
    var g := o.targetGeneration;
    var c0 := SetCondition(s.conditions, CondReconciled, CFalse, Given(reason), message, g, at);
    var c1 := SetCondition(c0, CondOperationFailed, CTrue, Given(reason), message, g, at);
    var c2 := match o.capability {
                case Create => SetCondition(c1, CondReady, CFalse, Given(reason), message, g, at)
                case Update => c1
                case Delete => SetCondition(c1, CondDeleted, CFalse, Given(reason), message, g, at)
                case OtherCapability(_) => c1
              };
    if g < r.generation then
      var c3 := SetCondition(c2, CondReconciled, CFalse, Known(NewerGenerationPending), "", g, at);
      SetCondition(c3, CondReconciling, CFalse, Known(NewerGenerationPending), "", g, at)
    else
      SetCondition(c2, CondReconciling, CFalse, Known(OperationFailed), message, g, at)
  }

  /** Where a failure leaves the resource: a failed delete restores what preceded it. */
  function FailedState(s: ResourceStatus, capability: Capability): ResourceState {
    match capability
    case Update => RsReady
    case Delete => if Holds(s.conditions, CondReady) then RsReady else RsFailed
    case _ => RsFailed
  }

  function Fail(r: Resource, s: ResourceStatus, o: Operation, reason: string, message: string,
                eventID: EventID, at: Time): (t: Result<Transition, EngineError>)
  {
    if !OperationContextValid(r, s, o, at) then Err(InvalidTransition)
    else
      var done := FailOperation(o, reason, message, at);
      if done.Err? then Err(OperationRejected)
      else if o.capability.OtherCapability? then Err(InvalidTransition)
      else
        var cs := FailedConditions(r, s, o, reason, message, at);
        var status :- StatusOf(r.id, s.observedGeneration, FailedState(s, o.capability), cs, at);
        var event :- EventOf(eventID, r.id, o, FailedEvent, Given(reason), message, at);
        Ok(Transition(done.value, status, event))
  }

  // ------------------------------------------------------------ dependencies

  /** The one writer of the dependency condition. Its time is not checked here. */
  function SetDependencyCondition(s: ResourceStatus, status: ConditionStatus, reason: Reason, message: string, at: Time):
    (t: Result<ResourceStatus, EngineError>)
  {
    var cs := SetCondition(s.conditions, CondDependenciesReady, status, reason, message, s.observedGeneration, at);
    StatusOf(s.resourceID, s.observedGeneration, s.state, cs, at)
  }

  // ------------------------------------------------------------- observation

  function ReadinessCondition(f: ObservedFacts): (ConditionStatus, Reason) {
    if f.presence.PresenceNotFound? then (CFalse, Known(ResourceNotFound))
    else if f.readiness.FactReady? then (CTrue, Known(ResourceReady))
    else if f.readiness.FactNotReady? then (CFalse, Known(ResourceNotReady))
    else (CUnknown, Known(ReadinessIsUnknown))
  }

  function DriftCondition(f: ObservedFacts): (ConditionStatus, Reason) {
    match f.drift
    case InSync => (CFalse, Known(DriftInSync))
    case Drifted => (CTrue, Known(DriftDetected))
    case _ => (CUnknown, Known(DriftIsUnknown))
  }

  function ObservedConditions(s: ResourceStatus, f: ObservedFacts, at: Time): seq<Condition> {
    var g := s.observedGeneration;
    var (readyStatus, readyReason) := ReadinessCondition(f);
    var (driftStatus, driftReason) := DriftCondition(f);
    var c0 := if !f.presence.PresenceUnknown? || !f.readiness.ReadinessUnknown?
                 || FindCondition(s.conditions, CondReady).None?
              then SetCondition(s.conditions, CondReady, readyStatus, readyReason, "", g, at)
              else s.conditions;
    var c1 := SetCondition(c0, CondDrifted, driftStatus, driftReason, "", g, at);
    if f.drift.Drifted? && (FindCondition(c1, CondReconciled).None? || Holds(c1, CondReconciled))
    then SetCondition(c1, CondReconciled, CFalse, Known(DriftDetected), "", g, at)
    else c1
  }

  function ObservedState(s: ResourceStatus, f: ObservedFacts, preserve: bool): ResourceState {
    if preserve || s.state.RsDeleted? || s.state.RsFailed? then s.state
    else if f.presence.Present? && f.readiness.FactReady? then RsReady
    else if f.presence.PresenceNotFound? || (f.presence.Present? && f.readiness.FactNotReady?) then RsUnknown
    else s.state
  }

  function ObserveWith(r: Resource, s: ResourceStatus, f: ObservedFacts, at: Time, preserve: bool):
    (t: Result<ResourceStatus, EngineError>)
  {
    if !FactsValid(f) || s.resourceID != r.id then Err(InvalidTransition)
    else if at == ZERO_TIME || at < s.updatedAt || at < r.updatedAt then Err(InvalidTransition)
    else if ActiveCapability(s).Some? then Err(InvalidTransition)
    else
      var cs := ObservedConditions(s, f, at);
      StatusOf(r.id, s.observedGeneration, ObservedState(s, f, preserve), cs, at)
  }

  /** Passive facts: they create and complete no operation. */
  function ApplyObservation(r: Resource, s: ResourceStatus, f: ObservedFacts, at: Time): Result<ResourceStatus, EngineError> {
    ObserveWith(r, s, f, at, false)
  }

  /** Facts accompanying a terminal outcome: the lifecycle state stays authoritative. */
  function ApplyPostOperationObservation(r: Resource, s: ResourceStatus, f: ObservedFacts, at: Time): Result<ResourceStatus, EngineError> {
    ObserveWith(r, s, f, at, true)
  }
}
