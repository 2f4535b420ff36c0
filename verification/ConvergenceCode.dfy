/** The dependency gate, the drive step, terminal evidence and passive observation as the
    worker runs them. */
module ConvergenceCode {
  import opened AdmissionCode
  import opened AdmissionFacts
  import opened Basics
  import opened Convergence
  import opened ConvergenceFacts
  import opened Dependencies
  import opened Domain
  import opened Drive
  import opened Finishing
  import opened FinishFacts
  import opened Lifecycle
  import opened Outputs
  import opened Provisioning
  import opened References
  import opened Store

  class Worker {
    const catalog: Catalog
    var records: Records

    ghost predicate Valid()
      reads this
    {
      Invariant(records, catalog)
    }

    constructor (catalog: Catalog, records: Records)
      requires Invariant(records, catalog)
      ensures Valid() && this.catalog == catalog && this.records == records
    {
      this.catalog, this.records := catalog, records;
    }

    method ClassifyTarget(id: ResourceID) returns (kind: DependencyClass)
      requires Valid() && id in records.resources
      ensures kind == Classify(records, catalog, id)
    {
      hide Invariant, ActiveFor, ReconciledFor, RequiresPublishedOutputs;
      var rec := records.resources[id];
      match rec.status.state
      case RsDeleting | RsDeleted | RsInvalid(_) => return DependencyBroken;
      case RsPending | RsUnknown => return DependencyWaiting;
      case RsFailed | RsReady =>
      OneActive(records, catalog, id);
      var active := FindActive(records, id);
      if rec.status.state.RsFailed? {
        return if active.Some? then DependencyWaiting else DependencyTerminal;
      }
      var reconciled := FindReconciled(rec.status.conditions, rec.resource.generation);
      if !reconciled || active.Some? {
        return DependencyWaiting;
      }
      if RequiresPublishedOutputs(catalog, rec.resource.typeRef) && !OutputsPublishedFor(records, id, rec.resource.generation) {
        return DependencyWaiting;
      }
      return DependencyReady;
    }

    /** Looks the locked targets up and classifies them in order. */
    method ClassifyAll(targets: seq<ResourceID>) returns (ts: Option<seq<Classified>>)
      requires Valid()
      ensures ts.None? <==> exists i :: 0 <= i < |targets| && targets[i] !in records.resources
      ensures ts.Some? ==> ts.value == ClassifiedTargets(records, catalog, targets)
    {
      hide Invariant, Classify;
      for i := 0 to |targets|
        invariant forall j :: 0 <= j < i ==> targets[j] in records.resources
      {
        if targets[i] !in records.resources {
          return None;
        }
      }
      var all: seq<Classified> := [];
      for i := 0 to |targets|
        invariant all == ClassifiedTargets(records, catalog, targets[..i])
      {
        var kind := ClassifyTarget(targets[i]);
        all := all + [Classified(targets[i], kind)];
        assert targets[..i + 1] == targets[..i] + [targets[i]];
      }
      assert targets[..|targets|] == targets;
      return Some(all);
    }

    method Evaluate(id: ResourceID) returns (answer: GateAnswer)
      requires Valid() && id in records.resources
      ensures answer == EvaluateDependencies(records, catalog, id)
    {
      hide Invariant, Classify, DistinctTargets, JoinAll, NotReady;
      var rec := records.resources[id];
      if rec.resource.typeRef !in catalog {
        return GateUnknownType;
      }
      if catalog[rec.resource.typeRef].references.None? {
        return NotGated;
      }
      var edges := EdgesAt(records.desired, id);
      for i := 0 to |edges|
        invariant forall j :: 0 <= j < i ==> edges[j].generation == rec.resource.generation
      {
        if edges[i].generation != rec.resource.generation {
          return GateCorrupt;
        }
      }
      if |edges| == 0 {
        return NotGated;
      }
      var targets := DistinctEdgeTargets(edges);
      var ts := ClassifyAll(targets);
      if ts.None? {
        return GateTargetMissing;
      }
      var evaluation := EvaluateTargets(ts.value);
      return Gated(evaluation);
    }

    /** The writes of one step, one after the other. */
    method Write(id: ResourceID, status: ResourceStatus, o: Operation, x: Execution, desired: EdgeTable, applied: EdgeTable,
                 outputs: map<ResourceID, Published>, drift: set<ResourceID>)
      requires id in records.resources
      modifies this`records
      ensures records == MoveOperation(old(records), id, status, o, x, desired, applied, outputs, drift)
    {
      var tx := records;
      tx := tx.(resources := tx.resources[id := tx.resources[id].(status := status)]);
      tx := tx.(outputs := outputs);
      tx := tx.(operations := tx.operations[o.id := o]);
      tx := tx.(executions := tx.executions[o.id := x]);
      tx := tx.(desired := desired, applied := applied);
      tx := tx.(driftSeen := drift);
      records := tx;
    }

    /** A step that moves nothing but the operation, its status and its execution. */
    method WriteProgress(id: ResourceID, status: ResourceStatus, o: Operation, x: Execution)
      requires id in records.resources
      modifies this`records
      ensures var s := old(records); records == MoveOperation(s, id, status, o, x, s.desired, s.applied, s.outputs, s.driftSeen)
    {
      Write(id, status, o, x, records.desired, records.applied, records.outputs, records.driftSeen);
    }

    method AdvanceOperation(id: ResourceID, o: Operation, x: Execution, next: Phase, gated: bool, at: Time) returns (r: Result<(), WorkError>)
      requires id in records.resources
      modifies this`records
      ensures Recorded(old(records), AdvanceThrough(old(records), id, o, x, next, gated, at), records, r)
    {
      hide Advance, SetDependencyCondition, Released, InternalEventID, TransitionLabel, MoveOperation;
      var rec := records.resources[id];
      var moved := Advance(rec.resource, rec.status, o, next, InternalEventID(o.id, TransitionLabel(next)), at);
      if moved.Err? {
        return Err(EngineStopped(moved.error));
      }
      var status := moved.value.status;
      if gated {
        var noted := SetDependencyCondition(status, CTrue, Known(DependenciesSatisfied), "", at);
        if noted.Err? {
          return Err(EngineStopped(noted.error));
        }
        status := noted.value;
      }
      var released := Released(x, next);
      if released.Err? {
        return Err(released.error);
      }
      WriteProgress(id, status, moved.value.operation, released.value);
      return Ok(());
    }

    method SettleBlock(id: ResourceID, o: Operation, x: Execution, kind: DependencyClass, at: Time) returns (r: Result<(), WorkError>)
      requires id in records.resources
      modifies this`records
      ensures Recorded(old(records), SettleGateBlock(old(records), id, o, x, kind, at), records, r)
    {
      hide SetDependencyCondition, BuildFinishEvidence, GateFailure, MoveOperation;
      var rec := records.resources[id];
      var noted := SetDependencyCondition(rec.status, CFalse, Known(BlockReason(kind)), "", at);
      if noted.Err? {
        return Err(EngineStopped(noted.error));
      }
      if kind.DependencyWaiting? {
        records := records.(resources := records.resources[id := rec.(status := noted.value)]);
        return Ok(());
      }
      var done := BuildFinishEvidence(o, rec.resource, noted.value, GateFailure(kind), at);
      if done.Err? {
        return Err(EngineStopped(done.error));
      }
      var failed := x.(state := AttemptFailed, correlation := CorrUnknown, acceptanceConfirmed := false);
      WriteProgress(id, done.value.status, done.value.operation, failed);
      return Ok(());
    }

    method DriveOnce(oid: OperationID) returns (r: Result<(), WorkError>)
      requires Valid()
      modifies this`records
      ensures Recorded(old(records), DriveOperation(old(records), catalog, oid), records, r)
      ensures Valid()
    {
      hide Invariant, AdvanceThrough, SettleGateBlock, EvaluateDependencies;
      ghost var before := records;
      if DriveOperation(before, catalog, oid).Ok? {
        DriveKeepsInvariant(before, catalog, oid, DriveOperation(before, catalog, oid).value);
      }
      if oid !in records.operations || records.operations[oid].resourceID !in records.resources || oid !in records.executions {
        return Err(NoSuchWork);
      }
      var o, x := records.operations[oid], records.executions[oid];
      if o.IsTerminal() {
        return Err(StaleWork);
      }
      var next := NextPhase(o);
      if next.None? {
        return Err(NotDrivable);
      }
      var id, at := o.resourceID, o.phaseChangedAt + 1;
      if next.value.Applying? && !o.capability.Delete? && x.currentAttempt == 0 && !x.IsOutputRecovery() {
        var answer := Evaluate(id);
        match answer
        case NotGated => r := AdvanceOperation(id, o, x, next.value, false, at);
        case Gated(e) =>
          if e.kind.DependencyReady? {
            r := AdvanceOperation(id, o, x, next.value, true, at);
          } else {
            r := SettleBlock(id, o, x, e.kind, at);
          }
        case GateUnknownType => r := Err(UnknownTypeWork);
        case GateTargetMissing => r := Err(NoSuchWork);
        case GateCorrupt => r := Err(CorruptRows);
      } else {
        r := AdvanceOperation(id, o, x, next.value, false, at);
      }
    }

    // ------------------------------------------------------------- terminal evidence

    method FinishAsFailed(id: ResourceID, o: Operation, x: Execution, finish: Finish, at: Time) returns (r: Result<(), WorkError>)
      requires id in records.resources
      modifies this`records
      ensures Recorded(old(records), FinishFailed(old(records), id, o, x, finish, at), records, r)
    {
      hide BuildFinishEvidence, Aligned, AlignedExecution, DriftAfter, MoveOperation, Sanitized;
      var rec := records.resources[id];
      var done := BuildFinishEvidence(o, rec.resource, rec.status, finish, Aligned(at, rec));
      if done.Err? {
        return Err(EngineStopped(done.error));
      }
      Write(id, done.value.status, done.value.operation, AlignedExecution(x, at, rec), records.desired, records.applied, records.outputs,
            DriftAfter(records, id, Sanitized(finish.facts), false));
      return Ok(());
    }

    method FinishAsRejected(id: ResourceID, o: Operation, x: Execution, detail: string, at: Time) returns (r: Result<(), WorkError>)
      requires id in records.resources
      modifies this`records
      ensures Recorded(old(records), FinishRejected(old(records), id, o, x, detail, at), records, r)
    {
      hide BuildFinishEvidence, RejectionReason, MoveOperation;
      var rec := records.resources[id];
      var done := BuildFinishEvidence(o, rec.resource, rec.status, Finish(false, RejectionReason(), detail, NO_FACTS), at);
      if done.Err? {
        return Err(EngineStopped(done.error));
      }
      var y := x.(state := AttemptSucceeded);
      y := y.(outputs := y.outputs.(resolution := ResolutionRejected));
      y := y.(outputs := y.outputs.(failure := Some(Failure(RejectionReason(), detail))));
      WriteProgress(id, done.value.status, done.value.operation, y);
      return Ok(());
    }

    /** The desired rows, copied one by one to become the applied ones. */
    method AppliedRows(id: ResourceID, o: Operation) returns (r: Result<(EdgeTable, EdgeTable), WorkError>)
      requires id in records.resources
      ensures r == RowsAfterSuccess(records, id, o)
    {
      if o.capability.Delete? {
        return Ok((records.desired - {id}, records.applied - {id}));
      }
      if o.targetGeneration != records.resources[id].resource.generation {
        return Ok((records.desired, records.applied));
      }
      var desired := EdgesAt(records.desired, id);
      var applied: seq<Edge> := [];
      for i := 0 to |desired|
        invariant applied == desired[..i] && RowsCurrent(applied, o.targetGeneration)
      {
        if desired[i].generation != o.targetGeneration {
          return Err(CorruptRows);
        }
        applied := applied + [desired[i]];
      }
      assert desired[..|desired|] == desired;
      return Ok((records.desired, PutEdges(records.applied, id, o.targetGeneration, applied)));
    }

    method FinishAsSucceeded(id: ResourceID, o: Operation, x: Execution, finish: Finish, snapshot: Option<ResourceOutputs>, at: Time)
      returns (r: Result<(), WorkError>)
      requires id in records.resources
      modifies this`records
      ensures Recorded(old(records), FinishSucceeded(old(records), id, o, x, finish, snapshot, at), records, r)
    {
      hide BuildFinishEvidence, Aligned, AlignedExecution, DriftAfter, MoveOperation, Publish, RowsAfterSuccess, Sanitized;
      var rec := records.resources[id];
      var done := BuildFinishEvidence(o, rec.resource, rec.status, finish, Aligned(at, rec));
      if done.Err? {
        return Err(EngineStopped(done.error));
      }
      var outputs := records.outputs;
      var y := AlignedExecution(x, at, rec);
      if snapshot.Some? {
        var published := Publish(outputs, id, Published(o.id, x.outputs.mappingRef, snapshot.value));
        if published.None? {
          return Err(ContradictoryOutputs);
        }
        outputs := published.value;
        y := y.(outputs := y.outputs.(resolution := ResolutionPublished));
      } else {
        y := y.(outputs := y.outputs.(resolution := ResolutionNone));
      }
      var rows := AppliedRows(id, o);
      if rows.Err? {
        return Err(rows.error);
      }
      Write(id, done.value.status, done.value.operation, y, rows.value.0, rows.value.1, outputs,
            DriftAfter(records, id, Sanitized(finish.facts), true));
      return Ok(());
    }

    /** Terminal evidence: a failure, or a success that first settles its outputs. */
    method FinishOnce(x: Execution, finish: Finish, evidence: Option<OutputEvidence>, detail: string, at: Time) returns (r: Result<(), WorkError>)
      requires Valid()
      modifies this`records
      ensures Recorded(old(records), FinishOperation(old(records), catalog, x, finish, evidence, detail, at), records, r)
      ensures Valid()
    {
      hide Invariant, FinishFailed, FinishRejected, FinishSucceeded, PlanTerminalOutputs, EvidenceRepresentable, MappingContradicts, OutputsDeferred;
      ghost var before := records;
      if FinishOperation(before, catalog, x, finish, evidence, detail, at).Ok? {
        FinishKeepsInvariant(before, catalog, x, finish, evidence, detail, at,
                             FinishOperation(before, catalog, x, finish, evidence, detail, at).value);
      }
      var oid := x.intent.operationID;
      if oid !in records.operations || records.operations[oid].resourceID !in records.resources || oid !in records.executions {
        return Err(NoSuchWork);
      }
      var o := records.operations[oid];
      if o.IsTerminal() {
        return Err(StaleWork);
      }
      if x.intent != records.executions[oid].intent {
        return Err(ConflictingWork);
      }
      if !finish.succeeded {
        r := FinishAsFailed(o.resourceID, o, x, finish, at);
        return;
      }
      if MappingContradicts(x, evidence) {
        return Err(MappingContradicted);
      }
      if x.intent.typeRef !in catalog {
        return Err(UnknownTypeWork);
      }
      if !EvidenceRepresentable(evidence) {
        return Err(InvalidEvidence);
      }
      var plan := PlanTerminalOutputs(catalog[x.intent.typeRef].outputs, x.intent.capability, evidence, x.intent.targetGeneration, at);
      match plan
      case None => r := Err(InvalidEvidence);
      case Some(PlanDefer) =>
        records := records.(executions := records.executions[oid := OutputsDeferred(x)]);
        r := Ok(());
      case Some(PlanReject(_)) => r := FinishAsRejected(o.resourceID, o, x, detail, at);
      case Some(PlanPublish(snapshot)) => r := FinishAsSucceeded(o.resourceID, o, x, finish, Some(snapshot), at);
      case Some(PlanNone) => r := FinishAsSucceeded(o.resourceID, o, x, finish, None, at);
    }

    /** Facts about a resource at rest; what comes too late is dropped. */
    method ObserveOnce(id: ResourceID, f: ObservedFacts, at: Time) returns (r: Result<(), WorkError>)
      requires Valid()
      modifies this`records
      ensures Recorded(old(records), PassiveObserve(old(records), id, f, at), records, r)
      ensures Valid()
    {
      hide Invariant, ApplyObservation, ActiveFor, DriftAfter;
      ghost var before := records;
      if PassiveObserve(before, id, f, at).Ok? {
        PassiveKeepsInvariant(before, catalog, id, f, at, PassiveObserve(before, id, f, at).value);
      }
      if id !in records.resources {
        return Err(NoSuchWork);
      }
      var rec := records.resources[id];
      if at < rec.resource.updatedAt || at < rec.status.updatedAt {
        return Ok(());
      }
      OneActive(records, catalog, id);
      var active := FindActive(records, id);
      if active.Some? {
        return Ok(());
      }
      var seen := ApplyObservation(rec.resource, rec.status, f, at);
      if seen.Err? {
        return Err(EngineStopped(seen.error));
      }
      records := records.(resources := records.resources[id := rec.(status := seen.value)], driftSeen := DriftAfter(records, id, f, false));
      return Ok(());
    }
  }

  /** A worker transaction commits what the step says, or nothing. */
  predicate Recorded(before: Records, spec: WorkResult, after: Records, r: Result<(), WorkError>) {
    match spec
    case Ok(n) => r == Ok(()) && after == n
    case Err(e) => r == Err(e) && after == before
  }
}
