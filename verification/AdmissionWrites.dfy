/** What an admitted request writes: the one operation it starts, the execution that will
    carry it out, the resource's intent and rows, the key, and nothing else. */
module AdmissionWrites {
  import opened Admission
  import opened AdmissionFacts
  import opened AdmissionRules
  import opened Basics
  import opened Domain
  import opened Finishing
  import opened Graph
  import opened Lifecycle
  import opened LifecycleRuns
  import opened Provisioning
  import opened References
  import opened Store

  /** An operation nothing was done for yet. */
  function Begun(id: OperationID, resourceID: ResourceID, capability: Capability, generation: nat, retryOf: OperationID, at: Time): Operation {
    Operation(id, resourceID, capability, generation, retryOf, OpPending, Requested, at, 0, at, 0, None)
  }

  /** An execution the backend was never asked about, for the operation and the intent that
      the resource now has. */
  function Unasked(o: Operation, r: Resource, provisionerRef: string): Execution {
    Execution(Intent(o.id, provisionerRef, r.id, r.typeRef, o.capability, o.targetGeneration, r.spec, None),
              OutputProgress("", ResolutionUnset, None), None, AttemptPending, None, false, None, 0, 0, None, CorrUnknown, 0, 1, 1)
  }

  /** The rows of one source at a generation, in the order of the edges. */
  predicate RowsAre(t: EdgeTable, id: ResourceID, edges: seq<Edge>, generation: nat) {
    var rows := if id in t then t[id] else [];
    && |rows| == |edges|
    && forall i :: 0 <= i < |rows| ==> rows[i] == Edge(edges[i].slot, edges[i].target, generation)
  }

  ghost predicate OtherRowsStand(before: EdgeTable, after: EdgeTable, id: ResourceID) {
    forall other :: other != id ==> (other in after <==> other in before) && (other in before ==> after[other] == before[other])
  }

  /** One operation was added for the resource, with its execution and the caller's key. */
  predicate Added(s: Records, n: Records, q: Caller, kind: string, o: Operation, x: Execution, r: Resource, provisionerRef: string) {
    && r.id in n.resources
    && n.resources == s.resources[r.id := Record(r, n.resources[r.id].status, provisionerRef)]
    && n.resources[r.id].status.updatedAt == o.requestedAt && n.resources[r.id].status.observedGeneration == o.targetGeneration
    && n.operations == s.operations[o.id := o] && n.latest == s.latest[r.id := o.id]
    && n.executions == s.executions[o.id := x]
    && n.applied == s.applied && n.outputs == s.outputs && n.driftSeen == s.driftSeen
    && n.bindings == (if q.key == "" then s.bindings
                      else s.bindings[BindingKey(q.scope, q.key) := Binding(q.fingerprint, kind, r.id, o.id)])
  }

  lemma PersistAdds(s: Records, rec: Record, t: Transition, x: Execution, desired: EdgeTable, q: Caller, kind: string, updated: bool, n: Records,
                    oid: OperationID)
    requires Persist(s, rec, t, x, desired, q, kind, updated) == Ok(Admitted(n, oid, false))
    requires t.status.updatedAt == t.operation.requestedAt && t.status.observedGeneration == t.operation.targetGeneration
    requires t.operation.resourceID == rec.resource.id
    ensures oid == t.operation.id && Added(s, n, q, kind, t.operation, x, rec.resource, rec.provisionerRef)
    ensures n.desired == desired && n.resources[rec.resource.id].status == t.status
  {
  }

  lemma PutRows(t: EdgeTable, id: ResourceID, generation: nat, edges: seq<Edge>)
    ensures RowsAre(PutEdges(t, id, generation, edges), id, edges, generation)
    ensures OtherRowsStand(t, PutEdges(t, id, generation, edges), id)
  {
  }

  lemma NewExecutionIsUnasked(rec: Record, o: Operation)
    ensures NewExecution(rec, o) == Unasked(o, rec.resource, rec.provisionerRef)
  {
  }

  // -------------------------------------------------------------------- creates

  /** A create adds the resource at its first generation, with the edges it submitted. */
  lemma CreateWrites(s: Records, c: Catalog, q: CreateRequest, n: Records, oid: OperationID)
    requires Invariant(s, c) && AdmitCreate(s, c, q) == Ok(Admitted(n, oid, false))
    ensures oid == q.operationID && q.provisioner.Some? && CanonicalOf(q.references).Some?
    ensures var r := Resource(q.id, q.typeRef, q.owner, 1, q.spec, q.at, q.at);
            var o := Begun(oid, q.id, Create, 1, "", q.at);
            && Added(s, n, q.caller, "create", o, Unasked(o, r, q.provisioner.value), r, q.provisioner.value)
            && n.resources[q.id].status.state == RsPending
            && RowsAre(n.desired, q.id, CanonicalOf(q.references).value, 1) && OtherRowsStand(s.desired, n.desired, q.id)
            && n.updates == s.updates
  {
    hide Invariant, Replay, CanonicalOf, ShapeAccepts, Request, AddedEdgesError, PutEdges, Blank, ActiveFor, EdgesAcceptable,
         StatusWellFormed, Added, RowsAre, KeyFree;
    CreateAdmittedExactly(s, c, q);
    FreeKeyResolves(s, q.caller, CreateKind());
    var edges := CanonicalOf(q.references).value;
    NewRecords(q);
    var r := NewResource(q.id, q.typeRef, q.owner, q.spec, q.at).value;
    var begun := NewResourceStatus(q.id, 0, RsUnknown, [], q.at).value;
    var supported := c[q.typeRef].supported;
    EngineTakesCreate(q, r, begun, supported);
    var t := Request(r, q.typeRef, supported, begun, None, Create, q.operationID, q.eventID, q.at).value;
    CreateIsStarted(q, r, begun, supported, t);
    var rec := Record(r, t.status, q.provisioner.value);
    PersistAdds(s, rec, t, NewExecution(rec, t.operation), PutEdges(s.desired, q.id, 1, edges), q.caller, CreateKind(), false, n, oid);
    PutRows(s.desired, q.id, 1, edges);
    NewExecutionIsUnasked(rec, t.operation);
    KeepsUpdates(s, rec, t, NewExecution(rec, t.operation), PutEdges(s.desired, q.id, 1, edges), q.caller, CreateKind(), n, oid);
  }

  lemma CreateIsStarted(q: CreateRequest, r: Resource, begun: ResourceStatus, supported: set<Capability>, t: Transition)
    requires NewResource(q.id, q.typeRef, q.owner, q.spec, q.at) == Ok(r)
    requires NewResourceStatus(q.id, 0, RsUnknown, [], q.at) == Ok(begun)
    requires Request(r, q.typeRef, supported, begun, None, Create, q.operationID, q.eventID, q.at) == Ok(t)
    ensures t.status.observedGeneration == 1 && t.status.updatedAt == q.at && t.status.state == RsPending
  {
    hide Coherent, Request, StatusWellFormed;
    assert Coherent(World(r, begun, None)) by { FreshIsCoherent(World(r, begun, None)); }
    RequestIsFresh(World(r, begun, None), supported, Create, q.operationID, q.eventID, q.at, t);
  }

  lemma KeepsUpdates(s: Records, rec: Record, t: Transition, x: Execution, desired: EdgeTable, q: Caller, kind: string, n: Records, oid: OperationID)
    requires Persist(s, rec, t, x, desired, q, kind, false) == Ok(Admitted(n, oid, false))
    ensures n.updates == s.updates
  {
  }

  // --------------------------------------------------------------------- deletes

  /** A delete leaves the resource's intent and every row alone. */
  lemma DeleteWrites(s: Records, c: Catalog, q: ExistingRequest, n: Records, oid: OperationID)
    requires Invariant(s, c) && q.change.DeleteIt? && AdmitExisting(s, c, q) == Ok(Admitted(n, oid, false))
    ensures oid == q.operationID && q.id in s.resources
    ensures var r := s.resources[q.id].resource;
            var o := Begun(oid, q.id, Delete, r.generation, "", q.at);
            && Added(s, n, q.caller, "delete", o, Unasked(o, r, s.resources[q.id].provisionerRef), r, s.resources[q.id].provisionerRef)
            && n.resources[q.id].status.state == RsDeleting
            && n.desired == s.desired && n.updates == s.updates
  {
    hide Invariant, Replay, Request, ActiveFor, Added, Targets, KeyFree, HasInbound, InboundCorrupt, Coherent;
    DeleteAdmittedExactly(s, c, q);
    FreeKeyResolves(s, q.caller, DeleteKind());
    WorldIsCoherent(s, c, q.id);
    var rec := s.resources[q.id];
    var supported := c[rec.resource.typeRef].supported;
    var t := Request(rec.resource, rec.resource.typeRef, supported, rec.status, ActiveFor(s, q.id), Delete, q.operationID, q.eventID, q.at).value;
    RequestIsFresh(WorldOf(s, q.id), supported, Delete, q.operationID, q.eventID, q.at, t);
    PersistAdds(s, rec, t, NewExecution(rec, t.operation), s.desired, q.caller, DeleteKind(), false, n, oid);
    NewExecutionIsUnasked(rec, t.operation);
    KeepsUpdates(s, rec, t, NewExecution(rec, t.operation), s.desired, q.caller, DeleteKind(), n, oid);
  }

  // --------------------------------------------------------------------- updates

  /** The edges an update leaves the resource with: those it submitted, or the stored ones. */
  ghost function EdgesAfter(s: Records, q: ExistingRequest): seq<Edge>
    requires q.change.UpdateTo? && (q.change.references.Some? ==> CanonicalOf(q.change.references.value).Some?)
  {
    if q.change.references.Some? then CanonicalOf(q.change.references.value).value else EdgesAt(s.desired, q.id)
  }

  /** The specification it brings at the next generation, and the edges at that generation. */
  ghost predicate UpdateWritten(s: Records, n: Records, q: ExistingRequest, oid: OperationID) {
    && q.id in s.resources && q.change.UpdateTo?
    && (q.change.references.Some? ==> CanonicalOf(q.change.references.value).Some?)
    && var stored, provisioner := s.resources[q.id].resource, s.resources[q.id].provisionerRef;
    var r := stored.(spec := q.change.spec, generation := stored.generation + 1, updatedAt := q.at);
    var o := Begun(oid, q.id, Update, stored.generation + 1, "", q.at);
    && r.id == q.id && Added(s, n, q.caller, "update", o, Unasked(o, r, provisioner), r, provisioner)
    && n.resources[q.id].status.state == RsReady
    && RowsAre(n.desired, q.id, EdgesAfter(s, q), stored.generation + 1) && OtherRowsStand(s.desired, n.desired, q.id)
    && UpdatesOf(n, q.id) == UpdatesOf(s, q.id) + 1
  }

  /** What an admitted update writes. */
  lemma UpdateWrites(s: Records, c: Catalog, q: ExistingRequest, n: Records, oid: OperationID)
    requires Invariant(s, c) && q.change.UpdateTo? && AdmitExisting(s, c, q) == Ok(Admitted(n, oid, false))
    ensures oid == q.operationID && UpdateWritten(s, n, q, oid)
  {
    hide Invariant, Replay, Request, ActiveFor, Added, RowsAre, KeyFree, CanonicalOf, UpdateReferencesError, ReferencesAcceptable, PutEdges, Coherent,
         UpdateSpec, UpdatesOf, EdgesAt, OtherRowsStand;
    UpdateAdmittedExactly(s, c, q);
    FreeKeyResolves(s, q.caller, UpdateKind());
    WorldIsCoherent(s, c, q.id);
    var rec := s.resources[q.id];
    SpecMoves(rec.resource, q.change.spec, q.at);
    var u := UpdateSpec(rec.resource, q.change.spec, q.at).value;
    UpdatedWorld(s, c, q.id, q.change.spec, q.at, u);
    var supported := c[rec.resource.typeRef].supported;
    var t := Request(u, u.typeRef, supported, rec.status, ActiveFor(s, q.id), Update, q.operationID, q.eventID, q.at).value;
    RequestIsFresh(World(u, rec.status, LatestFor(s, q.id)), supported, Update, q.operationID, q.eventID, q.at, t);
    var now := rec.(resource := u);
    var edges := EffectiveDesired(s, c, q);
    var desired := if q.change.references.Some? || edges != [] then PutEdges(s.desired, q.id, u.generation, edges) else s.desired;
    PersistAdds(s, now, t, NewExecution(now, t.operation), desired, q.caller, UpdateKind(), true, n, oid);
    NewExecutionIsUnasked(now, t.operation);
    CountsUpdate(s, now, t, NewExecution(now, t.operation), desired, q.caller, UpdateKind(), n, oid);
    PutRows(s.desired, q.id, u.generation, edges);
    EffectiveAreAfter(s, c, q);
    NothingStored(s.desired, q.id, u.generation);
  }

  lemma CountsUpdate(s: Records, rec: Record, t: Transition, x: Execution, desired: EdgeTable, q: Caller, kind: string, n: Records, oid: OperationID)
    requires Persist(s, rec, t, x, desired, q, kind, true) == Ok(Admitted(n, oid, false))
    ensures UpdatesOf(n, rec.resource.id) == UpdatesOf(s, rec.resource.id) + 1
  {
  }

  lemma NothingStored(t: EdgeTable, id: ResourceID, generation: nat)
    ensures EdgesAt(t, id) == [] ==> RowsAre(t, id, [], generation)
    ensures OtherRowsStand(t, t, id)
  {
  }

  /** A source with stored rows is of a type with references. */
  lemma EffectiveAreAfter(s: Records, c: Catalog, q: ExistingRequest)
    requires Invariant(s, c) && q.id in s.resources && s.resources[q.id].resource.typeRef in c && q.change.UpdateTo?
    requires q.change.references.Some? ==> CanonicalOf(q.change.references.value).Some?
    ensures EffectiveDesired(s, c, q) == EdgesAfter(s, q)
  {
    hide Books, Bound, Acyclic, DesiredGraph, CanonicalOf;
    if q.id in s.desired {
      assert RowsOk(s, c, q.id, s.desired[q.id], s.resources[q.id].resource.generation);
    }
  }

  // --------------------------------------------------------------------- retries

  /** A retry repeats the failed operation at its own generation; when outputs were what
      failed, its execution only recovers those of the failed one's last attempt. */
  lemma RetryWrites(s: Records, c: Catalog, q: RetryRequest, n: Records, oid: OperationID)
    requires Invariant(s, c) && AdmitRetry(s, c, q) == Ok(Admitted(n, oid, false))
    ensures oid == q.operationID && q.source in s.operations && q.source in s.executions && s.operations[q.source].resourceID in s.resources
    ensures FailedOnOutputs(s.operations[q.source]) ==> q.mapping.Some?
    ensures var failed := s.operations[q.source];
            var rec := s.resources[failed.resourceID];
            var o := Begun(oid, failed.resourceID, failed.capability, failed.targetGeneration, q.source, q.at);
            var x := Unasked(o, rec.resource, rec.provisionerRef);
            && Added(s, n, q.caller, "retry", o,
                     if FailedOnOutputs(failed)
                     then x.(intent := x.intent.(recoverySource := Some((q.source, s.executions[q.source].currentAttempt))),
                             outputs := OutputProgress(q.mapping.value, ResolutionPending, None), state := AttemptSucceeded)
                     else x,
                     rec.resource, rec.provisionerRef)
            && n.desired == s.desired && n.updates == s.updates
  {
    hide Invariant, Replay, Request, ActiveFor, Added, KeyFree, RetryRefusal, Coherent, Recoverable, Blank;
    RetryAdmittedExactly(s, c, q);
    FreeKeyResolves(s, q.caller, RetryKind());
    SourceIsKnown(s, c, q);
    var failed := s.operations[q.source];
    var id := failed.resourceID;
    WorldIsCoherent(s, c, id);
    var rec := s.resources[id];
    var supported := c[rec.resource.typeRef].supported;
    EngineTakesRetry(s, c, id, failed, supported, q.operationID, q.eventID, q.at);
    var t := Request(rec.resource, rec.resource.typeRef, supported, rec.status, Some(failed), failed.capability, q.operationID, q.eventID, q.at).value;
    RetryIsStarted(s, c, id, failed, supported, q.operationID, q.eventID, q.at, t);
    var x := RetryExecution(rec, failed, s.executions[failed.id], t.operation, q.mapping);
    RecoveryChild(s, q, rec, failed, t.operation);
    PersistAdds(s, rec, t, x, s.desired, q.caller, RetryKind(), false, n, oid);
    KeepsUpdates(s, rec, t, x, s.desired, q.caller, RetryKind(), n, oid);
  }

  lemma RetryIsStarted(s: Records, c: Catalog, id: ResourceID, failed: Operation, supported: set<Capability>, operationID: OperationID,
                       eventID: EventID, at: Time, t: Transition)
    requires Invariant(s, c) && id in s.resources && LatestFor(s, id) == Some(failed) && failed.state == OpFailed
    requires var rec := s.resources[id];
             Request(rec.resource, rec.resource.typeRef, supported, rec.status, Some(failed), failed.capability, operationID, eventID, at) == Ok(t)
    ensures t.status.updatedAt == at && t.status.observedGeneration == t.operation.targetGeneration
  {
    hide Invariant, RequestConditions, StatusWellFormed, RequestAllowed, ResourceContextValid, OperationSnapshotValid;
  }

  lemma RecoveryChild(s: Records, q: RetryRequest, rec: Record, failed: Operation, o: Operation)
    requires q.source in s.executions && failed.id == q.source && s.executions[q.source].intent.operationID == q.source
    requires FailedOnOutputs(failed) ==> Recoverable(s, q)
    ensures FailedOnOutputs(failed) ==> q.mapping.Some?
    ensures var x := Unasked(o, rec.resource, rec.provisionerRef);
            RetryExecution(rec, failed, s.executions[q.source], o, q.mapping) ==
              if FailedOnOutputs(failed)
              then x.(intent := x.intent.(recoverySource := Some((q.source, s.executions[q.source].currentAttempt))),
                      outputs := OutputProgress(q.mapping.value, ResolutionPending, None), state := AttemptSucceeded)
              else x
  {
    hide EvidenceAccepted, TerminalObservation, Blank;
  }
}
