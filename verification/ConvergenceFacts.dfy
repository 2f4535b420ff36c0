/** Every worker step keeps the records' invariant and their protected targets. */
module ConvergenceFacts {
  import opened AdmissionFacts
  import opened Basics
  import opened Cells
  import opened Convergence
  import opened Dependencies
  import opened Domain
  import opened Drive
  import opened Finishing
  import opened Graph
  import opened Lifecycle
  import opened LifecycleRuns
  import opened Outputs
  import opened Provisioning
  import opened References
  import opened Rows
  import opened Store
  import opened Submission

  // ----------------------------------------------------------- moves in general

  lemma MoveEvolves(s: Records, id: ResourceID, status: ResourceStatus, o: Operation, x: Execution, desired: EdgeTable,
                    applied: EdgeTable, outputs: map<ResourceID, Published>, drift: set<ResourceID>)
    requires id in s.resources
    ensures Evolves(s, MoveOperation(s, id, status, o, x, desired, applied, outputs, drift))
  {
  }

  lemma MoveKeepsBound(s: Records, id: ResourceID, status: ResourceStatus, o: Operation, x: Execution, desired: EdgeTable,
                       applied: EdgeTable, outputs: map<ResourceID, Published>, drift: set<ResourceID>)
    requires Bound(s) && id in s.resources && o.id in s.operations && o.resourceID == s.operations[o.id].resourceID
    ensures Bound(MoveOperation(s, id, status, o, x, desired, applied, outputs, drift))
  {
  }

  /** Rows that nobody rewrites stay sound as long as their source is not deleted. */
  lemma KeptRowsStaySound(s: Records, n: Records, c: Catalog, id: ResourceID)
    requires Links(s, c) && Evolves(s, n) && n.desired == s.desired && n.applied == s.applied
    requires id in s.resources && id in n.resources && !n.resources[id].status.state.RsDeleted?
    requires n.resources[id].resource.generation == s.resources[id].resource.generation
    requires OthersKept(s, n, id)
    ensures Links(n, c)
  {
    hide Links, RowsOk, Evolves, Acyclic, DesiredGraph;
    DesiredPersist(s, n, c, id);
    if id in s.applied {
      AppliedPersist(s, n, c, id);
    }
    LinksAfterWrite(s, n, c, id);
  }

  lemma MoveKeepsInvariant(s: Records, c: Catalog, id: ResourceID, status: ResourceStatus, o: Operation, x: Execution,
                           outputs: map<ResourceID, Published>, drift: set<ResourceID>)
    requires Invariant(s, c) && Movable(s, c, id, status, o, x, outputs, drift) && !status.state.RsDeleted?
    ensures Invariant(MoveOperation(s, id, status, o, x, s.desired, s.applied, outputs, drift), c)
  {
    hide Books, Links, Bound, CellOk, Evolves;
    MoveKeepsBooks(s, c, id, status, o, x, s.desired, s.applied, outputs, drift);
    MoveEvolves(s, id, status, o, x, s.desired, s.applied, outputs, drift);
    MoveKeepsBound(s, id, status, o, x, s.desired, s.applied, outputs, drift);
    KeptRowsStaySound(s, MoveOperation(s, id, status, o, x, s.desired, s.applied, outputs, drift), c, id);
  }

  lemma StatusKeepsInvariant(s: Records, c: Catalog, id: ResourceID, status: ResourceStatus, drift: set<ResourceID>)
    requires Invariant(s, c) && id in s.resources && LatestFor(s, id).Some?
    requires CellOk(c, s.resources[id].(status := status), LatestFor(s, id).value, UpdatesOf(s, id), id in drift, PublishedOf(s, id))
    requires forall other :: other != id ==> (other in drift <==> other in s.driftSeen)
    requires status.state.RsDeleted? ==> s.resources[id].status.state.RsDeleted?
    ensures Invariant(PutStatus(s, id, status, drift), c)
  {
    hide Books, Links, Bound, CellOk, Evolves;
    var n := PutStatus(s, id, status, drift);
    StatusKeepsBooks(s, c, id, status, drift);
    StatusEvolves(s, id, status, drift);
    assert Bound(n) by { StatusKeepsBound(s, id, status, drift); }
    if status.state.RsDeleted? {
      DeletedHasNoRows(s, c, id);
      assert Acyclic(DesiredGraph(n.desired)) by { LinksAcyclic(s, c); }
      LinksAfterWrite(s, n, c, id);
    } else {
      KeptRowsStaySound(s, n, c, id);
    }
  }

  lemma StatusEvolves(s: Records, id: ResourceID, status: ResourceStatus, drift: set<ResourceID>)
    requires id in s.resources
    ensures Evolves(s, PutStatus(s, id, status, drift))
  {
  }

  lemma StatusKeepsBound(s: Records, id: ResourceID, status: ResourceStatus, drift: set<ResourceID>)
    requires Bound(s) && id in s.resources
    ensures Bound(PutStatus(s, id, status, drift))
  {
  }

  lemma DeletedHasNoRows(s: Records, c: Catalog, id: ResourceID)
    requires Links(s, c) && id in s.resources && s.resources[id].status.state.RsDeleted?
    ensures id !in s.desired && id !in s.applied
  {
  }

  lemma LinksAcyclic(s: Records, c: Catalog)
    requires Links(s, c)
    ensures Acyclic(DesiredGraph(s.desired))
  {
  }

  /** The operation in hand is its resource's latest, with its execution at hand. */
  lemma WorkInHand(s: Records, c: Catalog, oid: OperationID)
    requires Books(s, c) && oid in s.operations && !s.operations[oid].IsTerminal()
    ensures var o := s.operations[oid];
            var id := o.resourceID;
            && o.id == oid && id in s.resources && s.resources[id].resource.id == id
            && id in s.latest && s.latest[id] == oid && LatestFor(s, id) == Some(o)
            && oid in s.executions && ContextFits(s.resources[id], o, s.executions[oid].intent)
            && o.targetGeneration == s.resources[id].resource.generation
            && CellOk(c, s.resources[id], o, UpdatesOf(s, id), id in s.driftSeen, PublishedOf(s, id))
            && !s.resources[id].status.state.RsDeleted?
            && s.resources[id].status.updatedAt <= o.phaseChangedAt + 1
  {
    hide CellOk, UpdatesOf, PublishedOf, ContextFits;
    assert OperationOk(s, oid);
    var id := s.operations[oid].resourceID;
    assert ResourceOk(s, c, id);
    CellOf(s, c, id);
    LatestBelongs(s, c, id);
    ActiveIsNotDeleted(c, s.resources[id], s.operations[oid], UpdatesOf(s, id), id in s.driftSeen, PublishedOf(s, id));
  }

  lemma ActiveIsNotDeleted(c: Catalog, rec: Record, o: Operation, updates: nat, drifted: bool, published: Option<Published>)
    requires CellOk(c, rec, o, updates, drifted, published) && !o.IsTerminal()
    ensures !rec.status.state.RsDeleted? && rec.status.updatedAt <= o.phaseChangedAt + 1
    ensures rec.status.state.RsDeleting? <==> o.capability.Delete?
  {
  }

  // ---------------------------------------------------------------------- driving

  lemma AdvanceThroughKeeps(s: Records, c: Catalog, o: Operation, x: Execution, next: Phase, gated: bool, n: Records)
    requires Invariant(s, c) && o.id in s.operations && s.operations[o.id] == o && !o.IsTerminal()
    requires o.id in s.executions && s.executions[o.id] == x && o.resourceID in s.resources
    requires AdvanceThrough(s, o.resourceID, o, x, next, gated, o.phaseChangedAt + 1) == Ok(n)
    ensures Invariant(n, c) && SameRows(s, n) && OthersStand(s, n, o.resourceID)
    ensures o.resourceID in n.resources && n.resources[o.resourceID].status.state == s.resources[o.resourceID].status.state
  {
    hide Books, Links, Bound, CellOk, Advance, SetDependencyCondition, UpdatesOf, PublishedOf, ContextFits, Released, InternalEventID, TransitionLabel;
    var id := o.resourceID;
    var at := o.phaseChangedAt + 1;
    WorkInHand(s, c, o.id);
    var rec := s.resources[id];
    var event := InternalEventID(o.id, TransitionLabel(next));
    var moved := Advance(rec.resource, rec.status, o, next, event, at).value;
    AdvancedCell(c, rec, o, UpdatesOf(s, id), id in s.driftSeen, PublishedOf(s, id), next, event, at, moved);
    var status := moved.status;
    if gated {
      AdvanceTime(rec.resource, rec.status, o, next, event, at);
      status := SetDependencyCondition(moved.status, CTrue, Known(DependenciesSatisfied), "", at).value;
      WaitingCell(c, rec.(status := moved.status), moved.operation, UpdatesOf(s, id), id in s.driftSeen, PublishedOf(s, id),
                  CTrue, Known(DependenciesSatisfied), "", at, status);
      assert rec.(status := moved.status).(status := status) == rec.(status := status);
    }
    ReleasedKeepsIntent(x, next);
    PublishedIs(s, id);
    MoveKeepsInvariant(s, c, id, status, moved.operation, Released(x, next).value, s.outputs, s.driftSeen);
  }

  lemma ReleasedKeepsIntent(x: Execution, next: Phase)
    requires Released(x, next).Ok?
    ensures Released(x, next).value.intent == x.intent
  {
  }

  lemma AdvanceTime(r: Resource, s: ResourceStatus, o: Operation, next: Phase, eventID: EventID, at: Time)
    requires Advance(r, s, o, next, eventID, at).Ok?
    ensures var t := Advance(r, s, o, next, eventID, at).value; t.status.updatedAt == at && t.operation.phaseChangedAt == at
  {
    hide StatusWellFormed, Upsert;
  }

  /** The reference rows did not change. */
  predicate SameRows(s: Records, n: Records) {
    n.desired == s.desired && n.applied == s.applied
  }

  /** No other resource changed. */
  ghost predicate OthersStand(s: Records, n: Records, id: ResourceID) {
    forall other :: other != id ==> (other in n.resources <==> other in s.resources) &&
                                    (other in s.resources ==> n.resources[other] == s.resources[other])
  }

  lemma GateFailureIs(kind: DependencyClass)
    ensures !GateFailure(kind).succeeded && !ReportsDrift(Sanitized(GateFailure(kind).facts))
  {
    hide DependencyFailedReason, DependencyInvalidReason, DependencyFailedMessage, DependencyInvalidMessage;
  }

  lemma SettleGateKeeps(s: Records, c: Catalog, o: Operation, x: Execution, kind: DependencyClass, n: Records)
    requires Invariant(s, c) && o.id in s.operations && s.operations[o.id] == o && !o.IsTerminal() && !o.capability.Delete?
    requires o.id in s.executions && s.executions[o.id] == x && o.resourceID in s.resources
    requires SettleGateBlock(s, o.resourceID, o, x, kind, o.phaseChangedAt + 1) == Ok(n)
    ensures Invariant(n, c) && SameRows(s, n) && OthersStand(s, n, o.resourceID)
    ensures o.resourceID in n.resources
    ensures !n.resources[o.resourceID].status.state.RsDeleting? && !n.resources[o.resourceID].status.state.RsDeleted?
  {
    hide Books, Links, Bound, CellOk, BuildFinishEvidence, SetDependencyCondition, UpdatesOf, PublishedOf, ContextFits,
         GateFailure, BlockReason, ReportsDrift;
    GateFailureIs(kind);
    var id := o.resourceID;
    var at := o.phaseChangedAt + 1;
    WorkInHand(s, c, o.id);
    var rec := s.resources[id];
    ActiveIsNotDeleted(c, rec, o, UpdatesOf(s, id), id in s.driftSeen, PublishedOf(s, id));
    var noted := SetDependencyCondition(rec.status, CFalse, Known(BlockReason(kind)), "", at).value;
    WaitingCell(c, rec, o, UpdatesOf(s, id), id in s.driftSeen, PublishedOf(s, id), CFalse, Known(BlockReason(kind)), "", at, noted);
    if kind.DependencyWaiting? {
      StatusKeepsInvariant(s, c, id, noted, s.driftSeen);
    } else {
      var done := BuildFinishEvidence(o, rec.resource, noted, GateFailure(kind), at).value;
      var held := rec.(status := noted);
      FinishedCell(c, held, o, UpdatesOf(s, id), id in s.driftSeen, PublishedOf(s, id), GateFailure(kind), at, done, PublishedOf(s, id));
      FailureIsNotDeleting(held, o, GateFailure(kind), at, done);
      assert held.(status := done.status) == rec.(status := done.status);
      PublishedIs(s, id);
      MoveKeepsInvariant(s, c, id, done.status, done.operation,
                         x.(state := AttemptFailed, correlation := CorrUnknown, acceptanceConfirmed := false), s.outputs, s.driftSeen);
    }
  }

  lemma PublishedIs(s: Records, id: ResourceID)
    ensures PublishedOf(s, id) == if id in s.outputs then Some(s.outputs[id]) else None
  {
  }

  /** A finished operation leaves no resource in Deleting. */
  lemma FailureIsNotDeleting(rec: Record, o: Operation, finish: Finish, at: Time, t: Transition)
    requires BuildFinishEvidence(o, rec.resource, rec.status, finish, at) == Ok(t)
    ensures !t.status.state.RsDeleting?
  {
    hide CompletedConditions, FailedConditions, StatusWellFormed, InternalEventID, ObservedConditions, Holds;
  }

  /** A driven operation, whatever its gate said. The dependency condition is written
      without a check of its time, yet never before the status it joins. */
  lemma DriveKeepsInvariant(s: Records, c: Catalog, oid: OperationID, n: Records)
    requires Invariant(s, c) && DriveOperation(s, c, oid) == Ok(n)
    ensures Invariant(n, c) && SameRows(s, n)
    ensures oid in s.operations && s.operations[oid].resourceID in s.resources
    ensures var id := s.operations[oid].resourceID;
            && OthersStand(s, n, id) && id in n.resources
            && (n.resources[id].status.state == s.resources[id].status.state
                || (!n.resources[id].status.state.RsDeleting? && !n.resources[id].status.state.RsDeleted?))
  {
    hide Invariant, AdvanceThrough, SettleGateBlock, EvaluateDependencies, Books, CellOk, ContextFits, UpdatesOf, PublishedOf, OthersStand;
    var o, x := s.operations[oid], s.executions[oid];
    assert Books(s, c) by { InvariantParts(s, c); }
    WorkInHand(s, c, oid);
    var next := NextPhase(o).value;
    if next.Applying? && !o.capability.Delete? && x.currentAttempt == 0 && !x.IsOutputRecovery() {
      var gate := EvaluateDependencies(s, c, o.resourceID);
      if gate.NotGated? {
        AdvanceThroughKeeps(s, c, o, x, next, false, n);
      } else if gate.evaluation.kind.DependencyReady? {
        AdvanceThroughKeeps(s, c, o, x, next, true, n);
      } else {
        SettleGateKeeps(s, c, o, x, gate.evaluation.kind, n);
      }
    } else {
      AdvanceThroughKeeps(s, c, o, x, next, false, n);
    }
  }
}
