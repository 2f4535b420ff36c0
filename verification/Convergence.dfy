/** What workers do to admitted operations: drive them through the dependency gate,
    record evidence, finish them, and observe resources at rest. Each step is one
    transaction; a refused one changes nothing. */
module Convergence {
  import opened Basics
  import opened Domain
  import opened Drive
  import opened Dependencies
  import opened Finishing
  import opened Lifecycle
  import opened Outputs
  import opened Provisioning
  import opened References
  import opened Store
  import opened Submission
  import Cells

  datatype WorkError =
    | NoSuchWork | StaleWork | NotDrivable | ConflictingWork | InvalidRecovery | UnknownTypeWork | CorruptRows
    | MappingContradicted | InvalidEvidence | ContradictoryOutputs | EngineStopped(why: EngineError)

  type WorkResult = Result<Records, WorkError>

  // --------------------------------------------------------------------- driving

  function DependencyFailedReason(): string { "DependencyFailed" }
  function DependencyInvalidReason(): string { "DependencyInvalid" }
  function DependencyFailedMessage(): string { "a referenced dependency failed and has no active recovery" }
  function DependencyInvalidMessage(): string { "a referenced dependency is unavailable or being deleted" }

  function BlockReason(kind: DependencyClass): ReasonCode {
    match kind
    case DependencyWaiting => WaitingForDependencies
    case DependencyTerminal => DependencyFailed
    case _ => DependencyInvalid
  }

  function GateFailure(kind: DependencyClass): Finish {
    if kind.DependencyTerminal? then Finish(false, DependencyFailedReason(), DependencyFailedMessage(), NO_FACTS)
    else Finish(false, DependencyInvalidReason(), DependencyInvalidMessage(), NO_FACTS)
  }

  /** A gate that refuses: waiting writes its condition, anything else fails the operation
      before it was ever submitted. */
  function SettleGateBlock(s: Records, id: ResourceID, o: Operation, x: Execution, kind: DependencyClass, at: Time): WorkResult
    requires id in s.resources
  {
    var rec := s.resources[id];
    var noted := SetDependencyCondition(rec.status, CFalse, Known(BlockReason(kind)), "", at);
    if noted.Err? then Err(EngineStopped(noted.error))
    else if kind.DependencyWaiting? then Ok(PutStatus(s, id, noted.value, s.driftSeen))
    else
      var done := BuildFinishEvidence(o, rec.resource, noted.value, GateFailure(kind), at);
      if done.Err? then Err(EngineStopped(done.error))
      else Ok(MoveOperation(s, id, done.value.status, done.value.operation,
                            x.(state := AttemptFailed, correlation := CorrUnknown, acceptanceConfirmed := false),
                            s.desired, s.applied, s.outputs, s.driftSeen))
  }

  /** Asks for one more observation: the execution takes its next number. */
  function Rescheduled(x: Execution): Execution {
    x.(nextObservation := (if x.nextObservation == 0 then 1 else x.nextObservation) + 1)
  }

  /** The execution once its operation reaches the phase in which the backend may be asked. */
  function Released(x: Execution, next: Phase): Result<Execution, WorkError> {
    if !next.Applying? && !next.Destroying? then Ok(x)
    else if x.currentAttempt != 0 then Err(ConflictingWork)
    else if x.IsOutputRecovery() then
      if !next.Applying? || x.intent.capability.Delete? || !x.state.AttemptSucceeded? || !x.outputs.resolution.ResolutionPending?
      then Err(InvalidRecovery)
      else Ok(Rescheduled(x))
    else Ok(x.(currentAttempt := 1))
  }

  /** One phase change; a satisfied gate also records its condition. */
  function AdvanceThrough(s: Records, id: ResourceID, o: Operation, x: Execution, next: Phase, gated: bool, at: Time): WorkResult
    requires id in s.resources
  {
    var rec := s.resources[id];
    var moved := Advance(rec.resource, rec.status, o, next, InternalEventID(o.id, TransitionLabel(next)), at);
    if moved.Err? then Err(EngineStopped(moved.error))
    else
      var noted := if gated then SetDependencyCondition(moved.value.status, CTrue, Known(DependenciesSatisfied), "", at)
                   else Ok(moved.value.status);
      if noted.Err? then Err(EngineStopped(noted.error))
      else
        var released := Released(x, next);
        if released.Err? then Err(released.error)
        else Ok(MoveOperation(s, id, noted.value, moved.value.operation, released.value, s.desired, s.applied, s.outputs, s.driftSeen))
  }

  ghost function DriveOperation(s: Records, c: Catalog, oid: OperationID): WorkResult {
    if oid !in s.operations || s.operations[oid].resourceID !in s.resources || oid !in s.executions then Err(NoSuchWork)
    else if s.operations[oid].IsTerminal() then Err(StaleWork)
    else if NextPhase(s.operations[oid]).None? then Err(NotDrivable)
    else
      var o, x := s.operations[oid], s.executions[oid];
      var id := o.resourceID;
      var next := NextPhase(o).value;
      var at := o.phaseChangedAt + 1;
      if next.Applying? && !o.capability.Delete? && x.currentAttempt == 0 && !x.IsOutputRecovery() then
        match EvaluateDependencies(s, c, id)
        case NotGated => AdvanceThrough(s, id, o, x, next, false, at)
        case Gated(e) =>
          if e.kind.DependencyReady? then AdvanceThrough(s, id, o, x, next, true, at)
          else SettleGateBlock(s, id, o, x, e.kind, at)
        case GateUnknownType => Err(UnknownTypeWork)
        case GateTargetMissing => Err(NoSuchWork)
        case GateCorrupt => Err(CorruptRows)
      else AdvanceThrough(s, id, o, x, next, false, at)
  }

  // ------------------------------------------------------------------- evidence

  /** Nonterminal evidence: the execution record changes, its intent never does. */
  function RecordEvidence(s: Records, x: Execution): WorkResult {
    var oid := x.intent.operationID;
    if oid !in s.operations || oid !in s.executions then Err(NoSuchWork)
    else if s.operations[oid].IsTerminal() then Err(StaleWork)
    else if x.intent != s.executions[oid].intent then Err(ConflictingWork)
    else Ok(s.(executions := s.executions[oid := x]))
  }

  // ------------------------------------------------------------------- finishing

  /** Terminal evidence that predates what was persisted is lifted to it. */
  function Aligned(at: Time, rec: Record): Time {
    MaxTime(at, MaxTime(rec.status.updatedAt, rec.resource.updatedAt))
  }

  function AlignedExecution(x: Execution, at: Time, rec: Record): Execution {
    if at < Aligned(at, rec) then x.(lastObservedAt := Aligned(at, rec)) else x
  }

  predicate MappingContradicts(x: Execution, evidence: Option<OutputEvidence>) {
    evidence.Some? && evidence.value.mappingRef != "" && evidence.value.mappingRef != x.outputs.mappingRef
  }

  /** The source's value types cannot hold anything else. */
  predicate EvidenceRepresentable(evidence: Option<OutputEvidence>) {
    evidence.Some? ==> forall name :: name in evidence.value.values ==> Representable(evidence.value.values[name])
  }

  /** Publishing keeps the newest snapshot; a different one of the same generation is refused. */
  function Publish(outputs: map<ResourceID, Published>, id: ResourceID, p: Published): Option<map<ResourceID, Published>> {
    if id !in outputs || outputs[id].snapshot.observedGeneration < p.snapshot.observedGeneration then Some(outputs[id := p])
    else if outputs[id] == p || p.snapshot.observedGeneration < outputs[id].snapshot.observedGeneration then Some(outputs)
    else None
  }

  /** What success does to the reference rows: a delete releases both sets, a create or
      update of the current generation makes its desired rows the applied ones. */
  function RowsAfterSuccess(s: Records, id: ResourceID, o: Operation): Result<(EdgeTable, EdgeTable), WorkError>
    requires id in s.resources
  {
    if o.capability.Delete? then Ok((s.desired - {id}, s.applied - {id}))
    else if o.targetGeneration != s.resources[id].resource.generation then Ok((s.desired, s.applied))
    else if !RowsCurrent(EdgesAt(s.desired, id), o.targetGeneration) then Err(CorruptRows)
    else Ok((s.desired, PutEdges(s.applied, id, o.targetGeneration, EdgesAt(s.desired, id))))
  }

  function DriftAfter(s: Records, id: ResourceID, f: ObservedFacts, anew: bool): set<ResourceID> {
    if Cells.ReportsDrift(f) then s.driftSeen + {id}
    else if anew then s.driftSeen - {id}
    else s.driftSeen
  }

  function FinishFailed(s: Records, id: ResourceID, o: Operation, x: Execution, finish: Finish, at: Time): WorkResult
    requires id in s.resources
  {
    var rec := s.resources[id];
    var done := BuildFinishEvidence(o, rec.resource, rec.status, finish, Aligned(at, rec));
    if done.Err? then Err(EngineStopped(done.error))
    else Ok(MoveOperation(s, id, done.value.status, done.value.operation, AlignedExecution(x, at, rec),
                          s.desired, s.applied, s.outputs, DriftAfter(s, id, Sanitized(finish.facts), false)))
  }

  /** Backend success whose outputs are still outstanding: kept, and observed again. */
  function OutputsDeferred(x: Execution): Execution {
    Rescheduled(x.(state := AttemptSucceeded, outputs := x.outputs.(resolution := ResolutionPending)))
  }

  function RejectionReason(): string { "OutputPostconditionRejected" }

  function FinishRejected(s: Records, id: ResourceID, o: Operation, x: Execution, detail: string, at: Time): WorkResult
    requires id in s.resources
  {
    var rec := s.resources[id];
    var done := BuildFinishEvidence(o, rec.resource, rec.status, Finish(false, RejectionReason(), detail, NO_FACTS), at);
    if done.Err? then Err(EngineStopped(done.error))
    else Ok(MoveOperation(s, id, done.value.status, done.value.operation,
                          x.(state := AttemptSucceeded,
                             outputs := x.outputs.(resolution := ResolutionRejected, failure := Some(Failure(RejectionReason(), detail)))),
                          s.desired, s.applied, s.outputs, s.driftSeen))
  }

  function FinishSucceeded(s: Records, id: ResourceID, o: Operation, x: Execution, finish: Finish, snapshot: Option<ResourceOutputs>, at: Time):
    WorkResult
    requires id in s.resources
  {
    var rec := s.resources[id];
    var done := BuildFinishEvidence(o, rec.resource, rec.status, finish, Aligned(at, rec));
    if done.Err? then Err(EngineStopped(done.error))
    else
      var outputs := if snapshot.Some? then Publish(s.outputs, id, Published(o.id, x.outputs.mappingRef, snapshot.value)) else Some(s.outputs);
      if outputs.None? then Err(ContradictoryOutputs)
      else
        var rows :- RowsAfterSuccess(s, id, o);
        var y := AlignedExecution(x, at, rec);
        Ok(MoveOperation(s, id, done.value.status, done.value.operation,
                         y.(outputs := y.outputs.(resolution := if snapshot.Some? then ResolutionPublished else ResolutionNone)),
                         rows.0, rows.1, outputs.value, DriftAfter(s, id, Sanitized(finish.facts), true)))
  }

  /** Terminal evidence for an operation in progress. A success first settles the outputs:
      they are published with it, awaited, or fail the operation. */
  function FinishOperation(s: Records, c: Catalog, x: Execution, finish: Finish, evidence: Option<OutputEvidence>, detail: string, at: Time):
    WorkResult
  {
    var oid := x.intent.operationID;
    if oid !in s.operations || s.operations[oid].resourceID !in s.resources || oid !in s.executions then Err(NoSuchWork)
    else if s.operations[oid].IsTerminal() then Err(StaleWork)
    else if x.intent != s.executions[oid].intent then Err(ConflictingWork)
    else
      var o := s.operations[oid];
      if !finish.succeeded then FinishFailed(s, o.resourceID, o, x, finish, at)
      else if MappingContradicts(x, evidence) then Err(MappingContradicted)
      else if x.intent.typeRef !in c then Err(UnknownTypeWork)
      else if !EvidenceRepresentable(evidence) then Err(InvalidEvidence)
      else
        var plan := PlanTerminalOutputs(c[x.intent.typeRef].outputs, x.intent.capability, evidence, x.intent.targetGeneration, at);
        match plan
        case None => Err(InvalidEvidence)
        case Some(PlanDefer) => Ok(s.(executions := s.executions[oid := OutputsDeferred(x)]))
        case Some(PlanReject(_)) => FinishRejected(s, o.resourceID, o, x, detail, at)
        case Some(PlanPublish(snapshot)) => FinishSucceeded(s, o.resourceID, o, x, finish, Some(snapshot), at)
        case Some(PlanNone) => FinishSucceeded(s, o.resourceID, o, x, finish, None, at)
  }

  // --------------------------------------------------------- passive observation

  /** Facts about a resource at rest; observations that come too late are dropped. */
  ghost function PassiveObserve(s: Records, id: ResourceID, f: ObservedFacts, at: Time): WorkResult {
    if id !in s.resources then Err(NoSuchWork)
    else if at < s.resources[id].resource.updatedAt || at < s.resources[id].status.updatedAt || ActiveFor(s, id).Some? then Ok(s)
    else
      var seen := ApplyObservation(s.resources[id].resource, s.resources[id].status, f, at);
      if seen.Err? then Err(EngineStopped(seen.error))
      else Ok(PutStatus(s, id, seen.value, DriftAfter(s, id, f, false)))
  }
}
