/** Every admitted request keeps the records' invariant; which of them keep targets
    protected; and what an idempotency key stands for. */
module AdmissionFacts {
  import opened Admission
  import opened Basics
  import opened Cells
  import opened Domain
  import opened Finishing
  import opened Graph
  import opened Lifecycle
  import opened Provisioning
  import opened References
  import opened Rows
  import opened Store

  // ------------------------------------------------------- writes in common

  lemma {:induction false} WithoutNothing(edges: seq<Edge>)
    ensures Without(edges, []) == edges
  {
    if edges != [] {
      WithoutNothing(edges[1..]);
      assert edges == [edges[0]] + edges[1..];
    }
  }

  lemma AddKeepsBound(s: Records, c: Catalog, rec: Record, o: Operation, x: Execution, desired: EdgeTable,
                      key: Option<BindingKey>, b: Binding, updated: bool)
    requires Bound(s) && o.id !in s.operations && o.resourceID == rec.resource.id
    requires b.operationID == o.id && b.resourceID == o.resourceID
    ensures Bound(AddOperation(s, rec, o, x, desired, key, b, updated))
  {
  }

  lemma AddEvolves(s: Records, rec: Record, o: Operation, x: Execution, desired: EdgeTable,
                   key: Option<BindingKey>, b: Binding, updated: bool)
    requires rec.resource.id in s.resources ==> Continues(s.resources[rec.resource.id], rec)
    ensures Evolves(s, AddOperation(s, rec, o, x, desired, key, b, updated))
  {
  }

  lemma NoRowsWithoutResource(s: Records, c: Catalog, id: ResourceID)
    requires Links(s, c) && id !in s.resources
    ensures id !in s.desired && id !in s.applied
  {
  }

  /** Rows of a rewritten set: the preserved ones were sound, the added ones were checked. */
  lemma RewrittenRowsOk(s: Records, n: Records, c: Catalog, id: ResourceID, owner: OwnerRef, g: nat, edges: seq<Edge>,
                        contract: Option<ReferenceContract>, readable: set<ResourceID>)
    requires Links(s, c) && Evolves(s, n)
    requires id in n.resources && n.resources[id].resource.owner == owner && !n.resources[id].status.state.RsDeleted?
    requires id in s.resources ==> s.resources[id].resource.owner == owner
    requires n.resources[id].resource.typeRef in c && c[n.resources[id].resource.typeRef].references.Some?
    requires edges != [] && TargetsEligible(s, owner, contract, Without(edges, EdgesAt(s.desired, id)), readable)
    ensures RowsOk(n, c, id, Stamped(edges, g), g)
  {
    hide Acyclic, DesiredGraph, SlotTargetTypeAllowed;
    var stored, rows := EdgesAt(s.desired, id), Stamped(edges, g);
    forall i | 0 <= i < |rows|
      ensures rows[i].generation == g && rows[i].target in n.resources && n.resources[rows[i].target].resource.owner == owner
    {
      var e := edges[i];
      if HasPair(stored, e) {
        var j :| 0 <= j < |stored| && SamePair(stored[j], e);
        assert stored[j].target in s.resources;
      } else {
        var added := Without(edges, stored);
        assert e in added;
        var j :| 0 <= j < |added| && added[j] == e;
        assert TargetEligible(s, owner, contract, added[j], readable);
      }
    }
  }

  /** The desired table after an admission that rewrites its source's rows, or does not. */
  function DesiredAfter(s: Records, rec: Record, rows: Option<seq<Edge>>): EdgeTable {
    if rows.None? then s.desired else PutEdges(s.desired, rec.resource.id, rec.resource.generation, rows.value)
  }

  /** What an admission has shown about the rows it writes. */
  predicate RowsAdmitted(s: Records, c: Catalog, rec: Record, rows: Option<seq<Edge>>, readable: set<ResourceID>) {
    var id := rec.resource.id;
    if rows.None? then
      id in s.desired ==> id in s.resources && rec.resource.generation == s.resources[id].resource.generation
    else
      rows.value != [] ==>
        && rec.resource.typeRef in c && c[rec.resource.typeRef].references.Some?
        && AddedEdgesError(s, id, rec.resource.owner, c[rec.resource.typeRef].references,
                           Without(rows.value, EdgesAt(s.desired, id)), readable).None?
  }

  lemma AddKeepsLinks(s: Records, c: Catalog, rec: Record, o: Operation, x: Execution, rows: Option<seq<Edge>>, readable: set<ResourceID>,
                      key: Option<BindingKey>, b: Binding, updated: bool)
    requires Links(s, c) && RowsAdmitted(s, c, rec, rows, readable)
    requires !rec.status.state.RsDeleted?
    requires rec.resource.id in s.resources ==> Continues(s.resources[rec.resource.id], rec)
    ensures Links(AddOperation(s, rec, o, x, DesiredAfter(s, rec, rows), key, b, updated), c)
  {
    hide Acyclic, DesiredGraph, Continues, AddedEdgesError, Without, Links, Evolves, RowsOk, PutEdges;
    var n := AddOperation(s, rec, o, x, DesiredAfter(s, rec, rows), key, b, updated);
    var id := rec.resource.id;
    AddEvolves(s, rec, o, x, DesiredAfter(s, rec, rows), key, b, updated);
    if id !in s.resources {
      NoRowsWithoutResource(s, c, id);
    } else if id in s.applied {
      AppliedPersist(s, n, c, id);
    }
    if rows.None? {
      DesiredPersist(s, n, c, id);
    } else {
      SameOwner(s, rec);
      RewriteAdmitted(s, c, n, rec, rows.value, readable);
    }
    OthersKeptByAdd(s, rec, o, x, DesiredAfter(s, rec, rows), key, b, updated, rows);
    LinksAfterWrite(s, n, c, id);
  }

  lemma OthersKeptByAdd(s: Records, rec: Record, o: Operation, x: Execution, desired: EdgeTable,
                        key: Option<BindingKey>, b: Binding, updated: bool, rows: Option<seq<Edge>>)
    requires desired == DesiredAfter(s, rec, rows)
    ensures OthersKept(s, AddOperation(s, rec, o, x, desired, key, b, updated), rec.resource.id)
  {
  }

  lemma SameOwner(s: Records, rec: Record)
    requires rec.resource.id in s.resources ==> Continues(s.resources[rec.resource.id], rec)
    ensures rec.resource.id in s.resources ==> s.resources[rec.resource.id].resource.owner == rec.resource.owner
  {
  }

  lemma DesiredPersist(s: Records, n: Records, c: Catalog, id: ResourceID)
    requires Links(s, c) && Evolves(s, n) && n.desired == s.desired
    requires id in n.resources && !n.resources[id].status.state.RsDeleted?
    requires id in s.desired ==> id in s.resources && n.resources[id].resource.generation == s.resources[id].resource.generation
    ensures Acyclic(DesiredGraph(n.desired))
    ensures id in n.desired ==> RowsOk(n, c, id, n.desired[id], n.resources[id].resource.generation)
  {
    hide Acyclic, DesiredGraph;
    if id in s.desired {
      RowsPersist(s, n, c, id, s.desired[id], s.resources[id].resource.generation);
    }
  }

  lemma AppliedPersist(s: Records, n: Records, c: Catalog, id: ResourceID)
    requires Links(s, c) && Evolves(s, n) && id in s.applied && n.applied == s.applied
    requires id in n.resources && !n.resources[id].status.state.RsDeleted?
    ensures exists g :: RowsOk(n, c, id, n.applied[id], g)
  {
    hide Acyclic, DesiredGraph;
    var g :| RowsOk(s, c, id, s.applied[id], g);
    RowsPersist(s, n, c, id, s.applied[id], g);
  }

  lemma RewriteAdmitted(s: Records, c: Catalog, n: Records, rec: Record, edges: seq<Edge>, readable: set<ResourceID>)
    requires Links(s, c) && Evolves(s, n)
    requires var id := rec.resource.id;
             && id in n.resources && n.resources[id] == rec && !rec.status.state.RsDeleted?
             && (id in s.resources ==> s.resources[id].resource.owner == rec.resource.owner)
             && n.desired == PutEdges(s.desired, id, rec.resource.generation, edges)
             && (edges != [] ==> rec.resource.typeRef in c && c[rec.resource.typeRef].references.Some?
                                 && AddedEdgesError(s, id, rec.resource.owner, c[rec.resource.typeRef].references,
                                                    Without(edges, EdgesAt(s.desired, id)), readable).None?)
    ensures Acyclic(DesiredGraph(n.desired))
    ensures var id := rec.resource.id;
            id in n.desired ==> RowsOk(n, c, id, n.desired[id], rec.resource.generation)
  {
    hide Acyclic, DesiredGraph, CycleVerdict, DistinctTargets;
    var id := rec.resource.id;
    if edges == [] {
      RemovalStaysAcyclic(s.desired, id);
    } else {
      var contract := c[rec.resource.typeRef].references;
      var added := Without(edges, EdgesAt(s.desired, id));
      assert added == [] ==> TargetsEligible(s, rec.resource.owner, contract, added, readable);
      RewriteStaysAcyclic(s.desired, id, rec.resource.generation, edges);
      RewrittenRowsOk(s, n, c, id, rec.resource.owner, rec.resource.generation, edges, contract, readable);
    }
  }

  /** One admission, whatever its kind. */
  lemma AdmissionKeepsInvariant(s: Records, c: Catalog, rec: Record, t: Transition, x: Execution, rows: Option<seq<Edge>>,
                                readable: set<ResourceID>, q: Caller, kind: string, updated: bool)
    requires Invariant(s, c)
    requires var now := rec.(status := t.status);
             && Addable(s, c, now, t.operation, x, updated)
             && RowsAdmitted(s, c, now, rows, readable)
             && !now.status.state.RsDeleted?
    requires Persist(s, rec, t, x, DesiredAfter(s, rec, rows), q, kind, updated).Ok?
    ensures Invariant(Persist(s, rec, t, x, DesiredAfter(s, rec, rows), q, kind, updated).value.records, c)
  {
    hide Books, Links, Bound, RowsAdmitted, AddOperation, CellOk, ContextFits, Continues;
    var now := rec.(status := t.status);
    var b := BindingOf(q, kind, t.operation);
    AddKeepsBooks(s, c, now, t.operation, x, DesiredAfter(s, rec, rows), KeyOf(q), b, updated);
    AddKeepsLinks(s, c, now, t.operation, x, rows, readable, KeyOf(q), b, updated);
    AddKeepsBound(s, c, now, t.operation, x, DesiredAfter(s, rec, rows), KeyOf(q), b, updated);
  }

  // --------------------------------------------------------------------- creates

  lemma AdmitNewAddable(s: Records, c: Catalog, q: CreateRequest, edges: seq<Edge>)
    returns (rec: Record, t: Transition)
    requires Invariant(s, c) && q.typeRef in c && AdmitNew(s, c, q, edges).Ok?
    requires ShapeAccepts(c[q.typeRef].references, q.id, edges)
    ensures q.id !in s.resources && rec.resource.id == q.id && rec.resource.generation == 1 && rec.status == t.status && rec.resource.owner == q.owner
    ensures AdmitNew(s, c, q, edges) ==
              Persist(s, rec, t, NewExecution(rec, t.operation), DesiredAfter(s, rec, Some(edges)), q.caller, CreateKind(), false)
    ensures Addable(s, c, rec, t.operation, NewExecution(rec, t.operation), false)
    ensures RowsAdmitted(s, c, rec, Some(edges), q.caller.readable)
    ensures rec.status.state.RsPending? && t.operation.id == q.operationID && t.operation.resourceID == q.id
    ensures t.operation.state.OpPending? && t.operation.phase.Requested? && t.operation.capability.Create? && rec.resource.typeRef == q.typeRef
    ensures edges != [] ==> TargetsEligible(s, q.owner, c[q.typeRef].references, edges, q.caller.readable)
  {
    hide CellOk, Links, Request, PutEdges, Replay, CanonicalOf, TargetsEligible, CycleVerdict, Without, ActiveFor, Bound, ResourceOk, OperationOk,
         DistinctTargets, DesiredGraph, StatusWellFormed, Blank;
    var r := NewResource(q.id, q.typeRef, q.owner, q.spec, q.at).value;
    var begun := NewResourceStatus(q.id, 0, RsUnknown, [], q.at).value;
    t := Request(r, q.typeRef, c[q.typeRef].supported, begun, None, Create, q.operationID, q.eventID, q.at).value;
    rec := Record(r, t.status, q.provisioner.value);
    RequestStarts(r, c[q.typeRef].supported, begun, None, Create, q.operationID, q.eventID, q.at);
    CreatedCell(c, rec, c[q.typeRef].supported, begun, t, q.operationID, q.eventID, q.at);
    NoRowsWithoutResource(s, c, q.id);
    WithoutNothing(edges);
    assert EdgesAt(s.desired, q.id) == [];
    assert edges != [] ==> c[q.typeRef].references.Some?;
  }

  /** An admitted create keeps the invariant; a replayed one leaves the records alone. */
  lemma CreateKeepsInvariant(s: Records, c: Catalog, q: CreateRequest)
    requires Invariant(s, c) && AdmitCreate(s, c, q).Ok?
    ensures Invariant(AdmitCreate(s, c, q).value.records, c)
    ensures AdmitCreate(s, c, q).value.replay ==> AdmitCreate(s, c, q).value.records == s
  {
    hide Invariant, AdmitNew, ShapeAccepts, Replay, CanonicalOf, Addable, RowsAdmitted;
    if Replay(s, KeyOf(q.caller), q.caller.fingerprint, CreateKind()).value.None? {
      var edges := CanonicalOf(q.references).value;
      var rec, t := AdmitNewAddable(s, c, q, edges);
      assert rec.(status := t.status) == rec;
      AdmissionKeepsInvariant(s, c, rec, t, NewExecution(rec, t.operation), Some(edges), q.caller.readable, q.caller, CreateKind(), false);
    }
  }

  // ------------------------------------------------------------------- deletes

  /** A request accepted with whatever operation the search found: nothing was in progress. */
  lemma AcceptedAtRest(s: Records, c: Catalog, id: ResourceID, r: Resource, supported: set<Capability>, capability: Capability,
                       operationID: OperationID, eventID: EventID, at: Time)
    requires Books(s, c) && id in s.resources
    requires Request(r, r.typeRef, supported, s.resources[id].status, ActiveFor(s, id), capability, operationID, eventID, at).Ok?
    ensures ActiveFor(s, id).None? && LatestFor(s, id).Some? && LatestFor(s, id).value.IsTerminal()
  {
    hide Books, Request, ActiveFor;
    ActiveIsLatest(s, c, id);
    RequestStarts(r, supported, s.resources[id].status, ActiveFor(s, id), capability, operationID, eventID, at);
  }

  lemma CellOf(s: Records, c: Catalog, id: ResourceID)
    requires Books(s, c) && id in s.resources
    ensures LatestFor(s, id).Some? && s.resources[id].resource.id == id
    ensures CellOk(c, s.resources[id], LatestFor(s, id).value, UpdatesOf(s, id), id in s.driftSeen, PublishedOf(s, id))
  {
    hide CellOk, OperationOk, UpdatesOf, PublishedOf;
    assert ResourceOk(s, c, id);
  }

  lemma DeleteTransition(s: Records, c: Catalog, q: ExistingRequest) returns (t: Transition)
    requires Invariant(s, c) && q.id in s.resources && s.resources[q.id].resource.typeRef in c && AdmitDelete(s, c, q).Ok?
    ensures !HasInbound(s, q.id) && s.resources[q.id].resource.id == q.id
    ensures var rec := s.resources[q.id];
            && AdmitDelete(s, c, q) == Persist(s, rec, t, NewExecution(rec, t.operation), DesiredAfter(s, rec, None), q.caller, DeleteKind(), false)
            && Addable(s, c, rec.(status := t.status), t.operation, NewExecution(rec, t.operation), false)
            && t.status.state.RsDeleting? && t.operation.id == q.operationID && t.operation.resourceID == q.id
            && t.operation.state.OpPending? && t.operation.capability.Delete?
  {
    hide CellOk, Links, Bound, Request, ActiveFor, HasInbound, InboundCorrupt, ResourceOk, OperationOk, UpdatesOf, PublishedOf;
    var rec := s.resources[q.id];
    var supported := c[rec.resource.typeRef].supported;
    t := Request(rec.resource, rec.resource.typeRef, supported, rec.status, ActiveFor(s, q.id), Delete, q.operationID, q.eventID, q.at).value;
    AcceptedAtRest(s, c, q.id, rec.resource, supported, Delete, q.operationID, q.eventID, q.at);
    RequestStarts(rec.resource, supported, rec.status, None, Delete, q.operationID, q.eventID, q.at);
    CellOf(s, c, q.id);
    RequestedCell(c, rec, rec.(status := t.status), LatestFor(s, q.id).value, UpdatesOf(s, q.id), false, q.id in s.driftSeen,
                  PublishedOf(s, q.id), supported, false, t, Delete, q.operationID, q.eventID, q.at);
  }

  // ------------------------------------------------------------------- updates

  lemma {:induction false} WithoutCovered(edges: seq<Edge>, others: seq<Edge>)
    requires forall i :: 0 <= i < |edges| ==> HasPair(others, edges[i])
    ensures Without(edges, others) == []
  {
    if edges != [] {
      WithoutCovered(edges[1..], others);
    }
  }

  lemma WithoutSelf(edges: seq<Edge>)
    ensures Without(edges, edges) == []
  {
    forall i | 0 <= i < |edges|
      ensures HasPair(edges, edges[i])
    {
      assert SamePair(edges[i], edges[i]);
    }
    WithoutCovered(edges, edges);
  }

  function UpdatedRows(q: ExistingRequest, edges: seq<Edge>): Option<seq<Edge>> {
    if q.change.UpdateTo? && (q.change.references.Some? || edges != []) then Some(edges) else None
  }

  lemma UpdateTransition(s: Records, c: Catalog, q: ExistingRequest) returns (rec: Record, t: Transition)
    requires Invariant(s, c) && q.id in s.resources && s.resources[q.id].resource.typeRef in c && q.change.UpdateTo?
    requires q.change.references.Some? ==> CanonicalOf(q.change.references.value).Some?
    requires AdmitUpdate(s, c, q).Ok?
    ensures UpdateReferencesError(s, c, q).None?
    ensures rec.resource.id == q.id && UpdateSpec(s.resources[q.id].resource, q.change.spec, q.at) == Ok(rec.resource)
    ensures var rows := UpdatedRows(q, EffectiveDesired(s, c, q));
            && AdmitUpdate(s, c, q) == Persist(s, rec, t, NewExecution(rec, t.operation), DesiredAfter(s, rec, rows), q.caller, UpdateKind(), true)
            && Addable(s, c, rec.(status := t.status), t.operation, NewExecution(rec, t.operation), true)
            && !t.status.state.RsDeleted? && !t.status.state.RsDeleting? && t.operation.id == q.operationID && t.operation.state.OpPending?
  {
    hide CellOk, Links, Bound, Request, ActiveFor, UpdateReferencesError, EffectiveDesired, ResourceOk, OperationOk, UpdatesOf, PublishedOf,
         CanonicalOf, PutEdges;
    var before := s.resources[q.id];
    var supported := c[before.resource.typeRef].supported;
    CellOf(s, c, q.id);
    var u := UpdateSpec(before.resource, q.change.spec, q.at).value;
    rec := before.(resource := u);
    t := Request(u, u.typeRef, supported, before.status, ActiveFor(s, q.id), Update, q.operationID, q.eventID, q.at).value;
    AcceptedAtRest(s, c, q.id, u, supported, Update, q.operationID, q.eventID, q.at);
    RequestStarts(u, supported, before.status, None, Update, q.operationID, q.eventID, q.at);
    RequestedCell(c, before, rec.(status := t.status), LatestFor(s, q.id).value, UpdatesOf(s, q.id), true, q.id in s.driftSeen,
                  PublishedOf(s, q.id), supported, false, t, Update, q.operationID, q.eventID, q.at);
  }

  lemma UpdateRowsAdmitted(s: Records, c: Catalog, q: ExistingRequest, rec: Record)
    requires Links(s, c) && q.id in s.resources && s.resources[q.id].resource.typeRef in c && q.change.UpdateTo?
    requires q.change.references.Some? ==> CanonicalOf(q.change.references.value).Some?
    requires UpdateReferencesError(s, c, q).None? && !Disguising(s, q)
    requires rec.resource.id == q.id && rec.resource.typeRef == s.resources[q.id].resource.typeRef
    requires rec.resource.owner == s.resources[q.id].resource.owner
    ensures RowsAdmitted(s, c, rec, UpdatedRows(q, EffectiveDesired(s, c, q)), q.caller.readable)
  {
    hide Acyclic, DesiredGraph, CanonicalOf, TargetsEligible, CycleVerdict, Without, WithoutKeys, Disguises, DistinctTargets;
    var stored := EdgesAt(s.desired, q.id);
    WithoutSelf(stored);
    assert q.id in s.desired ==> stored != [];
    if q.change.references.Some? {
      DifferenceIsCompleteExactly(EffectiveDesired(s, c, q), stored);
      ShapeNeedsContract(c[rec.resource.typeRef].references, q.id, EffectiveDesired(s, c, q));
    }
  }

  lemma ShapeNeedsContract(contract: Option<ReferenceContract>, id: ResourceID, edges: seq<Edge>)
    requires ShapeAccepts(contract, id, edges)
    ensures edges != [] ==> contract.Some?
  {
  }

  /** An admitted update or delete keeps the invariant, unless the update carries an edge
      in disguise; a replayed one leaves the records alone. */
  lemma ExistingKeepsInvariant(s: Records, c: Catalog, q: ExistingRequest)
    requires Invariant(s, c) && AdmitExisting(s, c, q).Ok? && !Disguising(s, q)
    ensures Invariant(AdmitExisting(s, c, q).value.records, c)
    ensures AdmitExisting(s, c, q).value.replay ==> AdmitExisting(s, c, q).value.records == s
  {
    hide Invariant, AdmitDelete, AdmitUpdate, Replay, CanonicalOf, Addable, RowsAdmitted, UpdateReferencesError, EffectiveDesired, Disguising;
    var kind := if q.change.DeleteIt? then DeleteKind() else UpdateKind();
    if Replay(s, KeyOf(q.caller), q.caller.fingerprint, kind).value.None? {
      assert Links(s, c) by { InvariantParts(s, c); }
      var before := s.resources[q.id];
      if q.change.DeleteIt? {
        var t := DeleteTransition(s, c, q);
        NoRowsToAdmit(s, c, before.(status := t.status), q.caller.readable);
        AdmissionKeepsInvariant(s, c, before, t, NewExecution(before, t.operation), None, q.caller.readable, q.caller, DeleteKind(), false);
      } else {
        var rec, t := UpdateTransition(s, c, q);
        UpdateRowsAdmitted(s, c, q, rec.(status := t.status));
        AdmissionKeepsInvariant(s, c, rec, t, NewExecution(rec, t.operation), UpdatedRows(q, EffectiveDesired(s, c, q)),
                                q.caller.readable, q.caller, UpdateKind(), true);
      }
    }
  }

  lemma InvariantParts(s: Records, c: Catalog)
    requires Invariant(s, c)
    ensures Books(s, c) && Links(s, c) && Bound(s)
  {
  }

  /** Rows nobody rewrites need no admission while the generation stands. */
  lemma NoRowsToAdmit(s: Records, c: Catalog, rec: Record, readable: set<ResourceID>)
    requires Links(s, c)
    requires rec.resource.id in s.resources && rec.resource.generation == s.resources[rec.resource.id].resource.generation
    ensures RowsAdmitted(s, c, rec, None, readable)
  {
  }

  // ------------------------------------------------------------------- retries

  lemma RetryTransition(s: Records, c: Catalog, q: RetryRequest) returns (t: Transition)
    requires Invariant(s, c) && q.source in s.operations && s.operations[q.source].resourceID in s.resources
    requires var failed := s.operations[q.source]; AdmitRetryOf(s, c, q, s.resources[failed.resourceID], failed).Ok?
    ensures s.operations[q.source].id in s.executions
    ensures var failed := s.operations[q.source];
            var rec := s.resources[failed.resourceID];
            var x := RetryExecution(rec, failed, s.executions[failed.id], t.operation, q.mapping);
            && rec.resource.id == failed.resourceID
            && AdmitRetryOf(s, c, q, rec, failed) == Persist(s, rec, t, x, DesiredAfter(s, rec, None), q.caller, RetryKind(), false)
            && Addable(s, c, rec.(status := t.status), t.operation, x, false)
            && !t.status.state.RsDeleted? && (t.status.state.RsDeleting? <==> failed.capability.Delete?)
            && t.operation.id == q.operationID && t.operation.state.OpPending?
  {
    hide CellOk, Links, Bound, Request, ActiveFor, ResourceOk, OperationOk, UpdatesOf, PublishedOf, RetryRefusal, IsOutputRecoveryFailure;
    var failed := s.operations[q.source];
    var rec := s.resources[failed.resourceID];
    CellOf(s, c, failed.resourceID);
    RetryKnowsExecution(s, c, q, rec, failed);
    var supported := c[rec.resource.typeRef].supported;
    t := Request(rec.resource, rec.resource.typeRef, supported, rec.status, Some(failed), failed.capability, q.operationID, q.eventID, q.at).value;
    RequestStarts(rec.resource, supported, rec.status, Some(failed), failed.capability, q.operationID, q.eventID, q.at);
    RequestedCell(c, rec, rec.(status := t.status), failed, UpdatesOf(s, failed.resourceID), false, failed.resourceID in s.driftSeen,
                  PublishedOf(s, failed.resourceID), supported, true, t, failed.capability, q.operationID, q.eventID, q.at);
  }

  lemma RetryKnowsExecution(s: Records, c: Catalog, q: RetryRequest, rec: Record, failed: Operation)
    requires RetryRefusal(s, c, q, rec, failed).None?
    ensures rec.resource.typeRef in c && failed.id in s.executions
  {
    hide EvidenceAccepted, RecoveryAdmissible;
  }

  /** An admitted retry keeps the invariant; a replayed one leaves the records alone. */
  lemma RetryKeepsInvariant(s: Records, c: Catalog, q: RetryRequest)
    requires Invariant(s, c) && AdmitRetry(s, c, q).Ok?
    ensures Invariant(AdmitRetry(s, c, q).value.records, c)
    ensures AdmitRetry(s, c, q).value.replay ==> AdmitRetry(s, c, q).value.records == s
  {
    hide Invariant, AdmitRetryOf, Replay, Addable, RowsAdmitted, RetryExecution;
    if Replay(s, KeyOf(q.caller), q.caller.fingerprint, RetryKind()).value.None? {
      assert Links(s, c) by { InvariantParts(s, c); }
      var t := RetryTransition(s, c, q);
      var failed := s.operations[q.source];
      var rec := s.resources[failed.resourceID];
      NoRowsToAdmit(s, c, rec.(status := t.status), q.caller.readable);
      AdmissionKeepsInvariant(s, c, rec, t, RetryExecution(rec, failed, s.executions[failed.id], t.operation, q.mapping), None,
                              q.caller.readable, q.caller, RetryKind(), false);
    }
  }
}
