/** Every history of one operation: what its fields can say after any sequence of
    phase changes and terminal transitions, and that persistence keeps all of it. */
module OperationRuns {
  import opened Basics
  import opened Domain

  datatype OpStep =
    | AdvanceTo(next: Phase, at: Time)
    | SucceedAt(at: Time)
    | FailAt(reason: string, message: string, at: Time)
    | CancelAt(at: Time)

  function Attempt(o: Operation, step: OpStep): Result<Operation, DomainError> {
    match step
    case AdvanceTo(next, at) => AdvancePhase(o, next, at)
    case SucceedAt(at) => Succeed(o, at)
    case FailAt(reason, message, at) => FailOperation(o, reason, message, at)
    case CancelAt(at) => Cancel(o, at)
  }

  /** A refused transition leaves the operation as it was. */
  function Play(o: Operation, steps: seq<OpStep>): Operation
    decreases |steps|
  {
    if steps == [] then o
    else
      var r := Attempt(o, steps[0]);
      Play(if r.Ok? then r.value else o, steps[1..])
  }

  /** The invariant of every operation that `NewOperation` starts. */
  predicate Sound(o: Operation) {
    && NewOperation(o.id, o.resourceID, o.capability, o.targetGeneration, o.requestedAt, o.retryOf).Ok?
    && !o.state.OpInvalid?
    && !o.phase.PhaseInvalid?
    && TimesOrdered(o)
    && (o.state.OpPending? ==> o.phase.Requested? && o.startedAt == ZERO_TIME)
    && (o.state.OpRunning? || o.state.OpSucceeded? ==> o.startedAt != ZERO_TIME)
    && (o.state.OpSucceeded? ==> IsFinalPhase(o))
    && (o.IsTerminal() <==> o.completedAt != ZERO_TIME)
    && (o.state.OpFailed? <==> o.failure.Some?)
    && (o.failure.Some? ==> !Blank(o.failure.value.reason))
  }

  /** requestedAt <= startedAt <= phaseChangedAt <= completedAt, for the times that are set. */
  predicate TimesOrdered(o: Operation) {
    && ZERO_TIME < o.requestedAt <= o.phaseChangedAt
    && (o.startedAt != ZERO_TIME ==> o.requestedAt <= o.startedAt <= o.phaseChangedAt)
    && (o.completedAt != ZERO_TIME ==> o.phaseChangedAt <= o.completedAt)
  }

  lemma {:induction false} SoundRun(o: Operation, steps: seq<OpStep>)
    requires Sound(o)
    ensures Sound(Play(o, steps))
    ensures o.IsTerminal() ==> Play(o, steps) == o
    decreases |steps|
  {
    if steps != [] {
      var r := Attempt(o, steps[0]);
      SoundRun(if r.Ok? then r.value else o, steps[1..]);
    }
  }

  /** From its request on, an operation keeps its times in order, never leaves a
      terminal state, and survives being stored and restored. */
  lemma EveryRunIsOrderedAndPersistent(id: OperationID, resourceID: ResourceID, capability: Capability,
                                       generation: nat, at: Time, retryOf: OperationID,
                                       before: seq<OpStep>, after: seq<OpStep>)
    requires NewOperation(id, resourceID, capability, generation, at, retryOf).Ok?
    ensures var o := Play(NewOperation(id, resourceID, capability, generation, at, retryOf).value, before);
            && TimesOrdered(o)
            && Restore(Snapshot(o)) == Ok(o)
            && (o.IsTerminal() ==> Play(o, after) == o)
  {
    var o := NewOperation(id, resourceID, capability, generation, at, retryOf).value;
    SoundRun(o, before);
    SoundRun(Play(o, before), after);
  }

  /** Restoring adds and loses nothing: the restored operation's snapshot is the stored one. */
  lemma RestoreKeepsSnapshot(s: OperationSnapshot)
    requires Restore(s).Ok?
    ensures Snapshot(Restore(s).value) == s
    ensures TimesOrdered(Restore(s).value) <==> s.startedAt <= s.phaseChangedAt
  {
    var o := Restore(s).value;
    assert o.requestedAt == s.requestedAt;
  }
}
