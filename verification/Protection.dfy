/** Which steps keep every reference target out of deletion: all but one kind of retry. */
module Protection {
  import opened Admission
  import opened AdmissionFacts
  import opened Basics
  import opened ControlPlane
  import opened Convergence
  import opened ConvergenceFacts
  import opened Domain
  import opened Finishing
  import opened FinishFacts
  import opened Lifecycle
  import opened Graph
  import opened Ordering
  import Provisioning
  import opened References
  import opened Rows
  import opened Store

  predicate BeingDeleted(s: Records, id: ResourceID) {
    id in s.resources && (s.resources[id].status.state.RsDeleting? || s.resources[id].status.state.RsDeleted?)
  }

  /** A step that changes one resource, and whose new rows only name targets that were
      named before or that are not being deleted. */
  lemma ProtectedFrame(s: Records, n: Records, id: ResourceID)
    requires Protected(s) && OthersStand(s, n, id)
    requires forall t :: HasInbound(n, t) ==> HasInbound(s, t) || (t in s.resources && !BeingDeleted(s, t))
    requires BeingDeleted(n, id) ==> !HasInbound(n, id)
    ensures Protected(n)
  {
    hide HasInbound;
    forall t | t in n.resources && BeingDeleted(n, t)
      ensures !HasInbound(n, t)
    {
      if t != id {
        assert BeingDeleted(s, t);
      }
    }
  }

  lemma SameRowsProtected(s: Records, n: Records, id: ResourceID)
    requires Protected(s) && OthersStand(s, n, id) && SameRows(s, n)
    ensures Protected(n) <==> (BeingDeleted(n, id) ==> !HasInbound(s, id))
  {
    hide HasInbound, OthersStand;
    forall t
      ensures HasInbound(n, t) <==> HasInbound(s, t)
    {
      SharedRowsInbound(s, n, t);
    }
    if BeingDeleted(n, id) ==> !HasInbound(s, id) {
      ProtectedFrame(s, n, id);
    }
  }

  lemma AddStands(s: Records, rec: Record, o: Operation, x: Provisioning.Execution, desired: EdgeTable,
                  key: Option<BindingKey>, b: Binding, updated: bool)
    ensures OthersStand(s, AddOperation(s, rec, o, x, desired, key, b, updated), rec.resource.id)
    ensures var n := AddOperation(s, rec, o, x, desired, key, b, updated);
            n.desired == desired && n.applied == s.applied && rec.resource.id in n.resources && n.resources[rec.resource.id] == rec
  {
  }

  /** Targets of a rewritten set were stored before or checked to be available. */
  lemma RewrittenTargets(s: Records, n: Records, id: ResourceID, owner: OwnerRef, g: nat, edges: seq<Edge>,
                         contract: Option<ReferenceContract>, readable: set<ResourceID>, t: ResourceID)
    requires n.desired == PutEdges(s.desired, id, g, edges) && n.applied == s.applied
    requires AddedEdgesError(s, id, owner, contract, Without(edges, EdgesAt(s.desired, id)), readable).None?
    requires HasInbound(n, t)
    ensures HasInbound(s, t) || (t in s.resources && !BeingDeleted(s, t))
  {
    hide CycleVerdict, DesiredGraph, DistinctTargets, SlotTargetTypeAllowed;
    if id in n.desired && Targets(n.desired[id], t) {
      var i :| 0 <= i < |n.desired[id]| && n.desired[id][i].target == t;
      var e := edges[i];
      var stored := EdgesAt(s.desired, id);
      if HasPair(stored, e) {
        var j :| 0 <= j < |stored| && SamePair(stored[j], e);
        assert Targets(s.desired[id], t);
      } else {
        var added := Without(edges, stored);
        assert e in added;
        var j :| 0 <= j < |added| && added[j] == e;
        assert TargetEligible(s, owner, contract, added[j], readable);
      }
    }
  }

  /** An admission in general: it keeps targets protected exactly when it does not start
      deleting a resource that rows still point at. */
  lemma AdmissionProtects(s: Records, c: Catalog, rec: Record, t: Transition, x: Provisioning.Execution, rows: Option<seq<Edge>>,
                          readable: set<ResourceID>, q: Caller, kind: string, updated: bool)
    requires Protected(s) && Persist(s, rec, t, x, DesiredAfter(s, rec, rows), q, kind, updated).Ok?
    requires RowsAdmitted(s, c, rec.(status := t.status), rows, readable)
    requires rows.None? || !(t.status.state.RsDeleting? || t.status.state.RsDeleted?)
    ensures Protected(Persist(s, rec, t, x, DesiredAfter(s, rec, rows), q, kind, updated).value.records) <==>
              ((t.status.state.RsDeleting? || t.status.state.RsDeleted?) ==> !HasInbound(s, rec.resource.id))
  {
    hide HasInbound, AddedEdgesError, Without, PutEdges, Protected, AddOperation;
    var id := rec.resource.id;
    var n := Persist(s, rec, t, x, DesiredAfter(s, rec, rows), q, kind, updated).value.records;
    AddStands(s, rec.(status := t.status), t.operation, x, DesiredAfter(s, rec, rows), KeyOf(q), BindingOf(q, kind, t.operation), updated);
    if rows.None? {
      SameRowsProtected(s, n, id);
    } else {
      forall target | HasInbound(n, target)
        ensures HasInbound(s, target) || (target in s.resources && !BeingDeleted(s, target))
      {
        if rows.value == [] {
          RemovedTargets(s, n, id, rec.resource.generation, target);
        } else {
          RewrittenTargets(s, n, id, rec.resource.owner, rec.resource.generation, rows.value, c[rec.resource.typeRef].references, readable, target);
        }
      }
      ProtectedFrame(s, n, id);
    }
  }

  lemma RemovedTargets(s: Records, n: Records, id: ResourceID, g: nat, t: ResourceID)
    requires n.desired == PutEdges(s.desired, id, g, []) && n.applied == s.applied && HasInbound(n, t)
    ensures HasInbound(s, t)
  {
  }

  lemma CreateProtects(s: Records, c: Catalog, q: CreateRequest)
    requires Invariant(s, c) && Protected(s) && AdmitCreate(s, c, q).Ok?
    ensures Protected(AdmitCreate(s, c, q).value.records)
  {
    hide Invariant, AdmitNew, ShapeAccepts, Replay, CanonicalOf, Addable, RowsAdmitted, Protected, Persist;
    if Replay(s, KeyOf(q.caller), q.caller.fingerprint, CreateKind()).value.None? {
      var edges := CanonicalOf(q.references).value;
      var rec, t := AdmitNewAddable(s, c, q, edges);
      assert rec.(status := t.status) == rec;
      AdmissionProtects(s, c, rec, t, NewExecution(rec, t.operation), Some(edges), q.caller.readable, q.caller, CreateKind(), false);
    }
  }

  lemma ExistingProtects(s: Records, c: Catalog, q: ExistingRequest)
    requires Invariant(s, c) && Protected(s) && AdmitExisting(s, c, q).Ok? && !Disguising(s, q)
    ensures Protected(AdmitExisting(s, c, q).value.records)
  {
    hide Invariant, AdmitDelete, AdmitUpdate, Replay, CanonicalOf, Addable, RowsAdmitted, UpdateReferencesError, EffectiveDesired,
         Protected, Persist, HasInbound, Disguising;
    var kind := if q.change.DeleteIt? then DeleteKind() else UpdateKind();
    if Replay(s, KeyOf(q.caller), q.caller.fingerprint, kind).value.None? {
      assert Links(s, c) by { InvariantParts(s, c); }
      var before := s.resources[q.id];
      if q.change.DeleteIt? {
        var t := DeleteTransition(s, c, q);
        NoRowsToAdmit(s, c, before.(status := t.status), q.caller.readable);
        AdmissionProtects(s, c, before, t, NewExecution(before, t.operation), None, q.caller.readable, q.caller, DeleteKind(), false);
      } else {
        var rec, t := UpdateTransition(s, c, q);
        UpdateRowsAdmitted(s, c, q, rec.(status := t.status));
        AdmissionProtects(s, c, rec, t, NewExecution(rec, t.operation), UpdatedRows(q, EffectiveDesired(s, c, q)),
                          q.caller.readable, q.caller, UpdateKind(), true);
      }
    }
  }

  /** A retry that starts deleting a resource again while rows point at it: unlike a
      delete, a retry looks for no inbound rows. */
  ghost predicate ReopensDelete(s: Records, c: Catalog, q: RetryRequest) {
    && AdmitRetry(s, c, q).Ok? && !AdmitRetry(s, c, q).value.replay
    && q.source in s.operations && s.operations[q.source].capability.Delete?
    && HasInbound(s, s.operations[q.source].resourceID)
  }

  lemma RetryProtects(s: Records, c: Catalog, q: RetryRequest)
    requires Invariant(s, c) && Protected(s) && AdmitRetry(s, c, q).Ok?
    ensures Protected(AdmitRetry(s, c, q).value.records) <==> !ReopensDelete(s, c, q)
  {
    hide Invariant, AdmitRetryOf, Replay, Addable, RowsAdmitted, RetryExecution, Protected, Persist, HasInbound;
    if Replay(s, KeyOf(q.caller), q.caller.fingerprint, RetryKind()).value.None? {
      assert Links(s, c) by { InvariantParts(s, c); }
      var t := RetryTransition(s, c, q);
      var failed := s.operations[q.source];
      var rec := s.resources[failed.resourceID];
      var x := RetryExecution(rec, failed, s.executions[failed.id], t.operation, q.mapping);
      NoRowsToAdmit(s, c, rec.(status := t.status), q.caller.readable);
      AdmissionProtects(s, c, rec, t, x, None, q.caller.readable, q.caller, RetryKind(), false);
      PersistCounts(s, rec, t, x, DesiredAfter(s, rec, None), q.caller, RetryKind(), false, rec.resource.id);
    }
  }

  lemma FinishProtects(s: Records, c: Catalog, x: Provisioning.Execution, finish: Provisioning.Finish, evidence: Option<Provisioning.OutputEvidence>,
                       detail: string, at: Time, n: Records)
    requires Invariant(s, c) && Protected(s) && FinishOperation(s, c, x, finish, evidence, detail, at) == Ok(n)
    ensures Protected(n)
  {
    hide Invariant, Books, Links, Bound, FinishOperation, HasInbound, PutEdges, CellOk, ContextFits, UpdatesOf, PublishedOf;
    FinishKeepsInvariant(s, c, x, finish, evidence, detail, at, n);
    InvariantParts(s, c);
    var o := s.operations[x.intent.operationID];
    var id := o.resourceID;
    WorkInHand(s, c, x.intent.operationID);
    ActiveIsNotDeleted(c, s.resources[id], o, UpdatesOf(s, id), id in s.driftSeen, PublishedOf(s, id));
    if n.resources == s.resources && SameRows(s, n) {
      SameRowsProtected(s, n, id);
    } else if SameRows(s, n) && Finished(s, n, o, false) {
      SameRowsProtected(s, n, id);
    } else {
      forall t | HasInbound(n, t)
        ensures HasInbound(s, t)
      {
        AppliedTargets(s, n, o, t);
      }
      ProtectedFrame(s, n, id);
    }
  }

  lemma AppliedTargets(s: Records, n: Records, o: Operation, t: ResourceID)
    requires n.desired == if o.capability.Delete? then s.desired - {o.resourceID} else s.desired
    requires n.applied == if o.capability.Delete? then s.applied - {o.resourceID}
                          else PutEdges(s.applied, o.resourceID, o.targetGeneration, EdgesAt(s.desired, o.resourceID))
    requires HasInbound(n, t)
    ensures HasInbound(s, t)
  {
    var id := o.resourceID;
    if NamedBy(n.applied, t) && !NamedBy(s.applied, t) {
      var i :| 0 <= i < |n.applied[id]| && n.applied[id][i].target == t;
      assert s.desired[id][i].target == t;
      assert Targets(s.desired[id], t);
    }
  }

  ghost predicate ReopensDeleteStep(s: Records, c: Catalog, step: Step) {
    step.DoRetry? && ReopensDelete(s, c, step.retry)
  }

  /** A step keeps every reference target out of deletion exactly when it is not an
      admitted retry of a delete whose resource is still referenced. */
  lemma StepProtects(s: Records, c: Catalog, step: Step)
    requires Steady(s, c) && Protected(s)
    ensures Protected(Next(s, c, step)) <==> !ReopensDeleteStep(s, c, step)
  {
    hide Invariant, Protected, AdmitCreate, AdmitExisting, AdmitRetry, DriveOperation, RecordEvidence, FinishOperation, PassiveObserve,
         HasInbound, CleanRows, TransportSafe, Disguising;
    if Taken(s, c, step).Some? {
      var n := Taken(s, c, step).value;
      match step
      case DoCreate(q) => CreateProtects(s, c, q);
      case DoExisting(q) =>
        TransportForbidsDisguise(s, q);
        ExistingProtects(s, c, q);
      case DoRetry(q) => RetryProtects(s, c, q);
      case DoDrive(oid) =>
        DriveKeepsInvariant(s, c, oid, n);
        KeptStateProtects(s, n, s.operations[oid].resourceID);
      case DoRecord(x) =>
        EvidenceKeepsInvariant(s, c, x, n);
        KeptResourcesProtect(s, n);
      case DoFinish(x, finish, evidence, detail, at) => FinishProtects(s, c, x, finish, evidence, detail, at, n);
      case DoObserve(id, f, at) =>
        PassiveKeepsInvariant(s, c, id, f, at, n);
        KeptStateProtects(s, n, id);
    }
  }

  lemma KeptStateProtects(s: Records, n: Records, id: ResourceID)
    requires Protected(s) && OthersStand(s, n, id) && SameRows(s, n) && id in s.resources && id in n.resources
    requires n.resources[id].status.state == s.resources[id].status.state
             || (!n.resources[id].status.state.RsDeleting? && !n.resources[id].status.state.RsDeleted?)
    ensures Protected(n)
  {
    hide HasInbound;
    SameRowsProtected(s, n, id);
  }

  lemma KeptResourcesProtect(s: Records, n: Records)
    requires Protected(s) && n.resources == s.resources && SameRows(s, n)
    ensures Protected(n)
  {
  }

  /** No step of the run reopens the delete of a referenced resource. */
  ghost predicate NeverReopens(s: Records, c: Catalog, steps: seq<Step>)
    decreases |steps|
  {
    hide Next, ReopensDeleteStep;
    steps != [] ==> !ReopensDeleteStep(s, c, steps[0]) && NeverReopens(Next(s, c, steps[0]), c, steps[1..])
  }

  /** Over any run without such a retry, no desired or applied row ever points at a
      resource that is being deleted or is deleted. */
  lemma {:induction false} RunProtects(s: Records, c: Catalog, steps: seq<Step>)
    requires Steady(s, c) && Protected(s) && NeverReopens(s, c, steps)
    ensures Protected(Play(s, c, steps))
    decreases |steps|
  {
    hide Steady, Protected, Next, ReopensDeleteStep;
    if steps != [] {
      StepProtects(s, c, steps[0]);
      StepKeepsSteady(s, c, steps[0]);
      RunProtects(Next(s, c, steps[0]), c, steps[1..]);
    }
  }
}
