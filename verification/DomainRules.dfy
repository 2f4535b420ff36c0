/** What the domain's constructors and transitions accept, for any values at all, and which
    of their two errors they give. */
module DomainRules {
  import opened Basics
  import opened Domain
  import OperationRuns

  // ------------------------------------------------------------- transitions

  /** The phase changes of each capability. */
  predicate Leads(o: Operation, next: Phase) {
    || (o.state == OpPending && o.phase == Requested && next == Validating)
    || (o.state == OpRunning && o.capability in {Create, Update} && (o.phase, next) in {(Validating, Planning), (Planning, Applying)})
    || (o.state == OpRunning && o.capability == Delete && (o.phase, next) == (Validating, Destroying))
  }

  predicate AtItsEnd(o: Operation) {
    && o.state == OpRunning
    && ((o.capability in {Create, Update} && o.phase == Applying) || (o.capability == Delete && o.phase == Destroying))
  }

  predicate Legal(o: Operation, step: OperationRuns.OpStep) {
    match step
    case AdvanceTo(next, _) => Leads(o, next)
    case SucceedAt(_) => AtItsEnd(o)
    case _ => o.state in {OpPending, OpRunning}
  }

  /** Set, and no earlier than the request or the last phase change. */
  predicate Timely(o: Operation, at: Time) {
    0 < at && o.requestedAt <= at && o.phaseChangedAt <= at
  }

  /** A transition is illegal by state and phase alone; a legal one is malformed by its time or
      a failure without a reason; any other gives the operation its new state. */
  lemma TransitionExactly(o: Operation, step: OperationRuns.OpStep)
    ensures var r := OperationRuns.Attempt(o, step);
            if !Legal(o, step) then r == Err(IllegalTransition)
            else if !Timely(o, step.at) || (step.FailAt? && Blank(step.reason)) then r == Err(Malformed)
            else r == Ok(match step
                         case AdvanceTo(next, at) =>
                           o.(state := OpRunning, phase := next, phaseChangedAt := at, startedAt := if o.state == OpPending then at else o.startedAt)
                         case SucceedAt(at) => o.(state := OpSucceeded, completedAt := at, failure := None)
                         case FailAt(reason, message, at) => o.(state := OpFailed, completedAt := at, failure := Some(Failure(reason, message)))
                         case CancelAt(at) => o.(state := OpCanceled, completedAt := at, failure := None))
  {
    hide Blank;
  }

  // ------------------------------------------------------------ constructors

  /** A capability name is one of the three, or text that trimming leaves alone. */
  predicate CapabilityNamed(c: Capability) {
    c in {Create, Update, Delete} ||
    (c.OtherCapability? && |c.name| > 0 && !IsSpace(c.name[0]) && !IsSpace(c.name[|c.name| - 1]))
  }

  lemma OperationMadeExactly(id: OperationID, resourceID: ResourceID, capability: Capability, targetGeneration: nat, requestedAt: Time,
                             retryOf: OperationID)
    ensures NewOperation(id, resourceID, capability, targetGeneration, requestedAt, retryOf) ==
              if !Blank(id) && !Blank(resourceID) && CapabilityNamed(capability) && 0 < targetGeneration && 0 < requestedAt
                 && (retryOf == "" || !Blank(retryOf)) && retryOf != id
              then Ok(Operation(id, resourceID, capability, targetGeneration, retryOf, OpPending, Requested, requestedAt, 0, requestedAt, 0, None))
              else Err(Malformed)
  {
    assert Blank("");
  }

  lemma ResourceMadeExactly(id: ResourceID, t: TypeRef, owner: OwnerRef, spec: Spec, at: Time)
    ensures NewResource(id, t, owner, spec, at) ==
              if !Blank(id) && !Blank(t.name) && !Blank(t.version) && !Blank(owner.kind) && !Blank(owner.id) && 0 < at
              then Ok(Resource(id, t, owner, 1, spec, at, at)) else Err(Malformed)
  {
    hide Blank;
  }

  lemma SpecUpdatedExactly(r: Resource, spec: Spec, at: Time)
    ensures UpdateSpec(r, spec, at) ==
              if 0 < at && r.updatedAt <= at && r.generation != 0xFFFF_FFFF_FFFF_FFFF
              then Ok(r.(spec := spec, generation := r.generation + 1, updatedAt := at)) else Err(Malformed)
  {
  }

  predicate ConditionComplete(c: Condition) {
    && (c.kind.CondOther? ==> !Blank(c.kind.name)) && c.status in {CTrue, CFalse, CUnknown}
    && (c.reason.Given? ==> !Blank(c.reason.text)) && 0 < c.lastTransitionAt
  }

  /** A status is made exactly of a known state at a set time, with at most one complete
      condition of each kind, none newer than the status. */
  lemma StatusMadeExactly(id: ResourceID, generation: nat, state: ResourceState, conditions: seq<Condition>, at: Time)
    ensures NewResourceStatus(id, generation, state, conditions, at) ==
              if !Blank(id) && state in {RsUnknown, RsPending, RsReady, RsDeleting, RsDeleted, RsFailed} && 0 < at
                 && (forall i, j :: 0 <= i < |conditions| && 0 <= j < |conditions| && conditions[i].kind == conditions[j].kind ==> i == j)
                 && (forall c :: c in conditions ==> ConditionComplete(c) && c.observedGeneration <= generation && c.lastTransitionAt <= at)
              then Ok(ResourceStatus(id, generation, state, conditions, at)) else Err(Malformed)
  {
    hide Blank;
    assert forall i :: 0 <= i < |conditions| ==> conditions[i] in conditions;
    forall c | c in conditions
      ensures ConditionComplete(c) <==> ConditionValid(c)
    {
      hide Blank;
    }
  }

  lemma EventMadeExactly(id: EventID, resourceID: ResourceID, operationID: OperationID, generation: nat, kind: EventKind, reason: Reason,
                         message: string, at: Time)
    ensures NewEvent(id, resourceID, operationID, generation, kind, reason, message, at) ==
              if !Blank(id) && !Blank(resourceID) && 0 < generation && (reason.Given? ==> !Blank(reason.text)) && 0 < at
              then Ok(Event(id, resourceID, operationID, generation, kind, reason, message, at)) else Err(Malformed)
  {
    hide Blank;
  }

  // -------------------------------------------------------------- persistence

  /** The snapshot says what a transition could have left: known state and phase, times that
      the state calls for, and a failure exactly for a failed operation. */
  predicate Restorable(s: OperationSnapshot) {
    && !Blank(s.id) && !Blank(s.resourceID) && CapabilityNamed(s.capability) && 0 < s.targetGeneration
    && (s.retryOf == "" || !Blank(s.retryOf)) && s.retryOf != s.id
    && s.phase in {Requested, Validating, Planning, Applying, Destroying}
    && 0 < s.requestedAt <= s.phaseChangedAt
    && (s.startedAt == 0 || s.requestedAt <= s.startedAt || s.state == OpPending)
    && (s.state != OpFailed ==> s.failureReason == s.failureMessage == "")
    && (match s.state
        case OpPending => s.phase == Requested && s.startedAt == s.completedAt == 0
        case OpRunning => 0 < s.startedAt && s.completedAt == 0
        case OpSucceeded => 0 < s.startedAt && s.phaseChangedAt <= s.completedAt
        case OpFailed => s.phaseChangedAt <= s.completedAt && !Blank(s.failureReason)
        case OpCanceled => s.phaseChangedAt <= s.completedAt
        case OpInvalid(_) => false)
  }

  lemma RestoredExactly(s: OperationSnapshot)
    ensures Restore(s) ==
              if Restorable(s)
              then Ok(Operation(s.id, s.resourceID, s.capability, s.targetGeneration, s.retryOf, s.state, s.phase, s.requestedAt, s.startedAt,
                                s.phaseChangedAt, s.completedAt,
                                if s.state == OpFailed then Some(Failure(s.failureReason, s.failureMessage)) else None))
              else Err(Malformed)
  {
    hide Blank, NewOperation;
    OperationMadeExactly(s.id, s.resourceID, s.capability, s.targetGeneration, s.requestedAt, s.retryOf);
  }
}
