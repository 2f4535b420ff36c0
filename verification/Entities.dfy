/** The entities the source mutates in place, each proved against the
    transition functions of `Domain`. */
module Entities {
  import opened Basics
  import opened Domain

  /** A call either took the operation from `was` to what `spec` computes, or
      reported the error of `spec` and left it alone. */
  ghost predicate Settled(spec: Result<Operation, DomainError>, was: Operation, now: Operation,
                          r: Result<(), DomainError>)
  {
    match spec
    case Ok(o) => r.Ok? && now == o
    case Err(e) => r == Err(e) && now == was
  }

  /** Builds a status the way the source does: one pass over the conditions with a
      set of the kinds already seen, copying each accepted condition. */
  method BuildResourceStatus(id: ResourceID, generation: nat, state: ResourceState,
                             conditions: seq<Condition>, at: Time)
    returns (r: Result<ResourceStatus, DomainError>)
    ensures r.Ok? <==> StatusWellFormed(ResourceStatus(id, generation, state, conditions, at))
    ensures r.Ok? ==> r.value == ResourceStatus(id, generation, state, conditions, at)
  {
    if Blank(id) || state.RsInvalid? || at == ZERO_TIME {
      return Err(Malformed);
    }
    var seen: set<ConditionType> := {};
    var cloned: seq<Condition> := [];
    for i := 0 to |conditions|
      invariant cloned == conditions[..i]
      invariant forall k :: k in seen <==> exists j :: 0 <= j < i && conditions[j].kind == k
      invariant UniqueKinds(conditions[..i])
      invariant ConditionsFit(conditions[..i], generation, at)
    {
      var c := conditions[i];
      if !ConditionValid(c) || c.kind in seen || generation < c.observedGeneration || at < c.lastTransitionAt {
        assert !(UniqueKinds(conditions) && ConditionsFit(conditions, generation, at));
        return Err(Malformed);
      }
      seen := seen + {c.kind};
      cloned := cloned + [c];
    }
    assert conditions[..|conditions|] == conditions;
    return Ok(ResourceStatus(id, generation, state, cloned, at));
  }

  /** The operation entity, whose methods update its fields in place. */
  class LiveOperation {
    const id: OperationID
    const resourceID: ResourceID
    const capability: Capability
    const targetGeneration: nat
    const retryOf: OperationID
    const requestedAt: Time
    var state: OperationState
    var phase: Phase
    var startedAt: Time
    var phaseChangedAt: Time
    var completedAt: Time
    var failure: Option<Failure>

    function Value(): Operation
      reads this
    {
      Operation(id, resourceID, capability, targetGeneration, retryOf, state, phase, requestedAt, startedAt,
                phaseChangedAt, completedAt, failure)
    }

    constructor (o: Operation)
      ensures Value() == o
    {
      id, resourceID, capability := o.id, o.resourceID, o.capability;
      targetGeneration, retryOf, requestedAt := o.targetGeneration, o.retryOf, o.requestedAt;
      state, phase, startedAt := o.state, o.phase, o.startedAt;
      phaseChangedAt, completedAt, failure := o.phaseChangedAt, o.completedAt, o.failure;
    }

    method AdvancePhase(next: Phase, at: Time) returns (r: Result<(), DomainError>)
      modifies this
      ensures Settled(Domain.AdvancePhase(old(Value()), next, at), old(Value()), Value(), r)
    {
      if Value().IsTerminal() || !CanAdvanceTo(Value(), next) {
        return Err(IllegalTransition);
      }
      if !ValidTransitionTime(Value(), at) {
        return Err(Malformed);
      }
      if state.OpPending? {
        state := OpRunning;
        startedAt := at;
      }
      phase := next;
      phaseChangedAt := at;
      return Ok(());
    }

    method Complete(next: OperationState, at: Time, why: Option<Failure>) returns (r: Result<(), DomainError>)
      modifies this
      ensures Settled(Domain.CompleteAs(old(Value()), next, at, why), old(Value()), Value(), r)
    {
      if !ValidTransitionTime(Value(), at) {
        return Err(Malformed);
      }
      state := next;
      completedAt := at;
      failure := why;
      return Ok(());
    }

    method Succeed(at: Time) returns (r: Result<(), DomainError>)
      modifies this
      ensures Settled(Domain.Succeed(old(Value()), at), old(Value()), Value(), r)
    {
      if !state.OpRunning? || !IsFinalPhase(Value()) {
        return Err(IllegalTransition);
      }
      r := Complete(OpSucceeded, at, None);
    }

    method Fail(reason: string, message: string, at: Time) returns (r: Result<(), DomainError>)
      modifies this
      ensures Settled(Domain.FailOperation(old(Value()), reason, message, at), old(Value()), Value(), r)
    {
      if !state.OpPending? && !state.OpRunning? {
        return Err(IllegalTransition);
      }
      if Blank(reason) {
        return Err(Malformed);
      }
      r := Complete(OpFailed, at, Some(Failure(reason, message)));
    }

    method Cancel(at: Time) returns (r: Result<(), DomainError>)
      modifies this
      ensures Settled(Domain.Cancel(old(Value()), at), old(Value()), Value(), r)
    {
      if !state.OpPending? && !state.OpRunning? {
        return Err(IllegalTransition);
      }
      r := Complete(OpCanceled, at, None);
    }
  }

  /** The resource entity; `UpdateSpec` is its only in-place change. */
  class LiveResource {
    var value: Resource

    constructor (r: Resource)
      ensures value == r
    {
      value := r;
    }

    method UpdateSpec(spec: Spec, at: Time) returns (r: Result<(), DomainError>)
      modifies this
      ensures r.Ok? <==> Domain.UpdateSpec(old(value), spec, at).Ok?
      ensures r.Ok? ==> value == Domain.UpdateSpec(old(value), spec, at).value
      ensures r.Err? ==> value == old(value)
    {
      if at == ZERO_TIME || at < value.updatedAt || value.generation == MAX_UINT64 {
        return Err(Malformed);
      }
      value := value.(spec := spec);
      value := value.(generation := value.generation + 1);
      value := value.(updatedAt := at);
      return Ok(());
    }
  }
}
