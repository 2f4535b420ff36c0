/** A reachable run in which a referenced resource goes back to being deleted: the one
    kind of step the protection of targets does not survive. */
module DeleteRetry {
  import opened Admission
  import opened AdmissionFacts
  import opened Basics
  import opened Cells
  import opened ControlPlane
  import opened Convergence
  import opened ConvergenceFacts
  import opened Domain
  import opened Finishing
  import opened FinishFacts
  import Graph
  import opened Lifecycle
  import opened LifecycleFacts
  import LifecycleRuns
  import opened Ordering
  import opened Protection
  import opened Provisioning
  import opened References
  import opened Rows
  import opened Store

  // --------------------------------------------------------- what is accepted

  /** The engine accepts an allowed request for a resource at rest. */
  lemma RequestIsAccepted(w: LifecycleRuns.World, latest: Option<Operation>, supported: set<Capability>, capability: Capability,
                          operationID: OperationID, eventID: EventID, at: Time)
    requires LifecycleRuns.Coherent(w) && (latest == w.latest || (latest.None? && ActiveCapability(w.status).None?))
    requires w.latest.Some? ==> w.latest.value.IsTerminal()
    requires capability in supported && !capability.OtherCapability?
    requires RequestAllowed(w.resource, w.status, capability, IsRetry(latest, capability))
    requires at != ZERO_TIME && w.status.updatedAt <= at && w.resource.updatedAt <= at
    requires !Blank(operationID) && !Blank(eventID) && (latest.Some? ==> latest.value.id != operationID)
    ensures Request(w.resource, w.resource.typeRef, supported, w.status, latest, capability, operationID, eventID, at).Ok?
  {
    hide Upsert, ByKind, UniqueKinds, ConditionsFit, RequestConditions;
    var retry := IsRetry(latest, capability);
    var target := if retry then latest.value.targetGeneration else w.resource.generation;
    var made := NewOperation(operationID, w.resource.id, capability, target, at, if retry then latest.value.id else "");
    FitsLater(w.status.conditions, w.status.observedGeneration, w.status.updatedAt, w.status.observedGeneration, at);
    RequestFacts(w.status, made.value, retry, at);
  }

  /** Now, for one resource: an instant not before anything written about it. */
  function Now(s: Records, id: ResourceID): Time
    requires id in s.resources
  {
    MaxTime(1, MaxTime(s.resources[id].resource.updatedAt, s.resources[id].status.updatedAt))
  }

  /** A caller without an idempotency key who may do everything. */
  function Anyone(readable: set<ResourceID>): Caller {
    Caller("", "", "", true, readable)
  }

  predicate Usable(s: Records, operationID: OperationID, eventID: EventID) {
    operationID !in s.operations && !Blank(operationID) && !Blank(eventID)
  }

  lemma AtRest(s: Records, c: Catalog, id: ResourceID)
    requires Invariant(s, c) && id in s.resources && LatestFor(s, id).Some? && LatestFor(s, id).value.IsTerminal()
    ensures ActiveFor(s, id).None? && s.resources[id].resource.id == id
    ensures s.resources[id].resource.typeRef in c && 1 <= s.resources[id].resource.generation
    ensures var w := LifecycleRuns.World(s.resources[id].resource, s.resources[id].status, LatestFor(s, id));
            LifecycleRuns.Coherent(w) && ActiveCapability(w.status).None?
  {
    hide Books, Links, Bound, LifecycleRuns.Coherent, ActiveFor, UpdatesOf, PublishedOf;
    CellOf(s, c, id);
    ActiveIsLatest(s, c, id);
    CoherentStatus(LifecycleRuns.World(s.resources[id].resource, s.resources[id].status, LatestFor(s, id)));
  }

  /** A retry of a failed delete is admitted whoever still references the resource. */
  lemma RetriedDeleteIsAdmitted(s: Records, c: Catalog, id: ResourceID, q: RetryRequest)
    requires Invariant(s, c) && id in s.resources && LatestFor(s, id).Some?
    requires var failed := LatestFor(s, id).value;
             && failed.state.OpFailed? && failed.capability.Delete? && !IsOutputRecoveryFailure(failed)
             && q == RetryRequest(Anyone({}), failed.id, s.resources[id].resource.generation, q.operationID, q.eventID, Now(s, id), None, None)
    requires s.resources[id].status.state.RsReady? || s.resources[id].status.state.RsFailed?
    requires Delete in c[s.resources[id].resource.typeRef].supported
    requires Usable(s, q.operationID, q.eventID)
    ensures AdmitRetry(s, c, q).Ok? && !AdmitRetry(s, c, q).value.replay
    ensures ReopensDelete(s, c, q) <==> HasInbound(s, id)
  {
    hide Books, Links, Bound, LifecycleRuns.Coherent, ActiveFor, Request, HasInbound, IsOutputRecoveryFailure, ContextFits, StatusWellFormed;
    var failed := LatestFor(s, id).value;
    LatestInBooks(s, c, id);
    AtRest(s, c, id);
    FitsProvenance(s.resources[id], failed, s.executions[failed.id]);
    var rec := s.resources[id];
    var supported := c[rec.resource.typeRef].supported;
    RequestIsAccepted(LifecycleRuns.World(rec.resource, rec.status, Some(failed)), Some(failed), supported, Delete, q.operationID, q.eventID, q.at);
    RequestStarts(rec.resource, supported, rec.status, Some(failed), Delete, q.operationID, q.eventID, q.at);
    RetryNames(rec.resource, supported, rec.status, failed, q.operationID, q.eventID, q.at);
  }

  lemma RetryNames(r: Resource, supported: set<Capability>, s: ResourceStatus, failed: Operation, operationID: OperationID, eventID: EventID, at: Time)
    requires Request(r, r.typeRef, supported, s, Some(failed), Delete, operationID, eventID, at).Ok?
    requires failed.state.OpFailed? && failed.capability.Delete?
    ensures Request(r, r.typeRef, supported, s, Some(failed), Delete, operationID, eventID, at).value.operation.retryOf == failed.id
  {
    hide RequestConditions, StatusWellFormed;
  }

  lemma LatestInBooks(s: Records, c: Catalog, id: ResourceID)
    requires Books(s, c) && id in s.resources && LatestFor(s, id).Some?
    ensures var o := LatestFor(s, id).value;
            && o.id in s.operations && s.operations[o.id] == o && o.resourceID == id
            && o.targetGeneration == s.resources[id].resource.generation
            && o.id in s.executions && ContextFits(s.resources[id], o, s.executions[o.id].intent)
            && s.executions.Keys <= s.operations.Keys
  {
    hide CellOk, ContextFits, UpdatesOf, PublishedOf;
    assert ResourceOk(s, c, id);
    LatestBelongs(s, c, id);
    assert OperationOk(s, s.latest[id]);
  }

  lemma FitsProvenance(rec: Record, o: Operation, x: Execution)
    requires ContextFits(rec, o, x.intent) && o.targetGeneration == rec.resource.generation
    ensures ProvenanceFits(rec, o, x)
  {
  }

  // ------------------------------------------------------------- the run's steps

  /** A create with nothing against it. */
  predicate Unopposed(s: Records, c: Catalog, q: CreateRequest, edges: seq<Edge>) {
    && q.caller.authorized && (KeyOf(q.caller).None? || KeyOf(q.caller).value !in s.bindings) && q.at == 1
    && q.typeRef in c && Create in c[q.typeRef].supported && q.specValid && q.policyAllows
    && q.provisioner.Some? && !Blank(q.provisioner.value)
    && !Blank(q.id) && !Blank(q.typeRef.name) && !Blank(q.typeRef.version) && !Blank(q.owner.kind) && !Blank(q.owner.id)
    && q.id !in s.resources && Usable(s, q.operationID, q.eventID)
    && AddedEdgesError(s, q.id, q.owner, c[q.typeRef].references, edges, q.caller.readable).None?
  }

  lemma CreateIsAccepted(s: Records, c: Catalog, q: CreateRequest, edges: seq<Edge>)
    requires Invariant(s, c) && Unopposed(s, c, q, edges)
    ensures AdmitNew(s, c, q, edges).Ok?
  {
    hide Books, Links, Bound, LifecycleRuns.Coherent, ActiveFor, Request, AddedEdgesError, PutEdges, StatusWellFormed;
    var r := NewResource(q.id, q.typeRef, q.owner, q.spec, q.at).value;
    var begun := NewResourceStatus(q.id, 0, RsUnknown, [], q.at);
    FreshStatus(q.id, q.at);
    var w := LifecycleRuns.World(r, begun.value, None);
    assert LifecycleRuns.Coherent(w) && ActiveCapability(w.status).None? by { FreshRests(w); }
    var supported := c[q.typeRef].supported;
    RequestIsAccepted(w, None, supported, Create, q.operationID, q.eventID, q.at);
    RequestStarts(r, supported, begun.value, None, Create, q.operationID, q.eventID, q.at);
    RequestIsNoRetry(r, supported, begun.value, Create, q.operationID, q.eventID, q.at);
    NothingActive(s, c, q.id);
  }

  /** An operation joined the records, and with it its resource's new state. */
  ghost predicate Joined(s: Records, n: Records, id: ResourceID, oid: OperationID, capability: Capability) {
    && id in n.resources && OthersStand(s, n, id)
    && n.latest == s.latest[id := oid] && n.operations.Keys == s.operations.Keys + {oid}
    && (forall other :: other in s.operations ==> n.operations[other] == s.operations[other])
    && oid in n.operations && n.operations[oid].id == oid && n.operations[oid].resourceID == id
    && n.operations[oid].state.OpPending? && n.operations[oid].capability == capability
    && n.applied == s.applied
  }

  lemma CreatedRecords(s: Records, c: Catalog, q: CreateRequest, edges: seq<Edge>) returns (n: Records)
    requires Invariant(s, c) && Unopposed(s, c, q, edges) && CanonicalOf(q.references) == Some(edges)
    requires ShapeAccepts(c[q.typeRef].references, q.id, edges)
    ensures AdmitCreate(s, c, q).Ok? && AdmitCreate(s, c, q).value.records == n
    ensures Joined(s, n, q.id, q.operationID, Create) && n.desired == PutEdges(s.desired, q.id, 1, edges)
    ensures n.resources[q.id].resource.typeRef == q.typeRef && n.resources[q.id].resource.owner == q.owner
    ensures n.resources[q.id].resource.generation == 1 && Begun(s, n, q.caller, q.operationID)
  {
    hide Begun, Invariant, AdmitCreate, AdmitNew, CanonicalOf, ShapeAccepts, PutEdges, Addable, RowsAdmitted, Unopposed, Persist, Joined,
         DesiredAfter, NewExecution;
    CreateIsAccepted(s, c, q, edges);
    CreateIsNew(s, c, q, edges);
    var rec, t := AdmitNewAddable(s, c, q, edges);
    n := AdmitNew(s, c, q, edges).value.records;
    PersistJoins(s, rec, t, NewExecution(rec, t.operation), DesiredAfter(s, rec, Some(edges)), q.caller, CreateKind(), false);
    DesiredByCreate(s, rec, edges);
  }

  lemma DesiredByCreate(s: Records, rec: Record, edges: seq<Edge>)
    requires rec.resource.generation == 1
    ensures DesiredAfter(s, rec, Some(edges)) == PutEdges(s.desired, rec.resource.id, 1, edges)
  {
  }

  lemma CreateIsNew(s: Records, c: Catalog, q: CreateRequest, edges: seq<Edge>)
    requires Unopposed(s, c, q, edges) && CanonicalOf(q.references) == Some(edges)
    requires ShapeAccepts(c[q.typeRef].references, q.id, edges)
    ensures q.typeRef in c && AdmitCreate(s, c, q) == AdmitNew(s, c, q, edges)
  {
    hide AdmitNew, CanonicalOf, ShapeAccepts, AddedEdgesError;
  }

  lemma PersistJoins(s: Records, rec: Record, t: Transition, x: Execution, desired: EdgeTable, q: Caller, kind: string, updated: bool)
    requires Persist(s, rec, t, x, desired, q, kind, updated).Ok?
    requires t.operation.resourceID == rec.resource.id && t.operation.state.OpPending?
    ensures var n := Persist(s, rec, t, x, desired, q, kind, updated).value.records;
            && Joined(s, n, rec.resource.id, t.operation.id, t.operation.capability)
            && n.desired == desired && n.resources[rec.resource.id] == rec.(status := t.status)
            && (t.operation.phase.Requested? && x == NewExecution(rec, t.operation) ==> Begun(s, n, q, t.operation.id))
  {
  }

  /** An operation at its request, with an execution nobody touched, bound to its caller's key. */
  ghost predicate Begun(s: Records, n: Records, q: Caller, oid: OperationID) {
    && oid in n.operations && n.operations[oid].phase.Requested?
    && oid in n.executions && Untouched(n.executions[oid])
    && (forall other :: other in s.executions && other != oid ==> other in n.executions && n.executions[other] == s.executions[other])
    && match KeyOf(q)
       case None => n.bindings == s.bindings
       case Some(k) => k in n.bindings && n.bindings == s.bindings[k := n.bindings[k]] && n.bindings[k].operationID == oid
  }

  predicate Untouched(x: Execution) {
    && x.submission.None? && x.lastObservation.None? && x.lastObservedAt == ZERO_TIME
    && x.state.AttemptPending? && x.currentAttempt == 0 && !x.IsOutputRecovery()
  }

  lemma FreshStatus(id: ResourceID, at: Time)
    requires !Blank(id) && at != ZERO_TIME
    ensures NewResourceStatus(id, 0, RsUnknown, [], at).Ok?
  {
  }

  lemma FreshRests(w: LifecycleRuns.World)
    requires LifecycleRuns.Fresh(w)
    ensures LifecycleRuns.Coherent(w) && ActiveCapability(w.status).None?
  {
    LifecycleRuns.FreshIsCoherent(w);
  }

  lemma RequestIsNoRetry(r: Resource, supported: set<Capability>, s: ResourceStatus, capability: Capability, operationID: OperationID,
                         eventID: EventID, at: Time)
    requires Request(r, r.typeRef, supported, s, None, capability, operationID, eventID, at).Ok?
    ensures Request(r, r.typeRef, supported, s, None, capability, operationID, eventID, at).value.operation.retryOf == ""
  {
    hide RequestConditions, StatusWellFormed;
  }

  lemma NothingActive(s: Records, c: Catalog, id: ResourceID)
    requires Invariant(s, c) && id !in s.resources
    ensures ActiveFor(s, id).None? && id !in s.latest && s.executions.Keys <= s.operations.Keys
  {
    hide Links, Bound, CellOk;
    forall oid | oid in s.operations
      ensures s.operations[oid].resourceID != id
    {
      assert OperationOk(s, oid);
    }
  }

  // ----------------------------------------------------------------- failures

  function Broken(): Finish {
    Finish(false, "Broken", "", NO_FACTS)
  }

  lemma BrokenIsNoOutputFailure(o: Operation)
    requires o.failure == Some(Failure(Broken().reason, Broken().message))
    ensures !Broken().succeeded && !Blank(Broken().reason) && !IsOutputRecoveryFailure(o)
  {
    assert Broken().reason[0] == 'B' && OutputPostconditionRejected()[0] == 'O';
  }

  /** A failure of the operation in hand. */
  function BreakStep(x: Execution): Step {
    DoFinish(x, Broken(), None, "", 1)
  }

  ghost predicate Failed(s: Records, n: Records, o: Operation) {
    && o.id in n.operations && n.operations[o.id].state.OpFailed? && n.operations[o.id].id == o.id
    && n.operations[o.id].resourceID == o.resourceID && n.operations[o.id].capability == o.capability && !IsOutputRecoveryFailure(n.operations[o.id])
    && n.latest == s.latest && n.operations.Keys == s.operations.Keys && OthersStand(s, n, o.resourceID) && SameRows(s, n)
    && o.resourceID in s.resources && o.resourceID in n.resources
    && n.resources[o.resourceID].resource == s.resources[o.resourceID].resource
    && (n.resources[o.resourceID].status.state.RsReady? || n.resources[o.resourceID].status.state.RsFailed?)
  }

  lemma FailureLeaves(rec: Record, o: Operation, finish: Finish, at: Time, t: Transition)
    requires BuildFinishEvidence(o, rec.resource, rec.status, finish, at) == Ok(t) && !finish.succeeded && finish.facts == NO_FACTS
    ensures t.status.state.RsReady? || t.status.state.RsFailed?
    ensures t.operation.id == o.id && t.operation.resourceID == o.resourceID && t.operation.capability == o.capability
    ensures t.operation.state.OpFailed?
    ensures t.operation.failure == Some(Failure(finish.reason, finish.message))
  {
    hide FailedConditions, StatusWellFormed, InternalEventID, Holds;
  }

  lemma FailureIsRecorded(s: Records, c: Catalog, o: Operation, x: Execution) returns (n: Records)
    requires Invariant(s, c) && o.id in s.operations && s.operations[o.id] == o && !o.IsTerminal()
    requires o.id in s.executions && s.executions[o.id] == x
    ensures FinishOperation(s, c, x, Broken(), None, "", 1) == Ok(n)
    ensures Failed(s, n, o)
  {
    hide Invariant, Books, Links, Bound, CellOk, ContextFits, UpdatesOf, PublishedOf, Broken, FinishFailed, FinishRejected, FinishSucceeded, Failed;
    InvariantParts(s, c);
    WorkInHand(s, c, o.id);
    ContextNames(s.resources[o.resourceID], o, x.intent);
    BrokenIsNoOutputFailure(o.(failure := Some(Failure(Broken().reason, Broken().message))));
    n := FailureRecords(s, c, o, x);
  }

  lemma FailureRecords(s: Records, c: Catalog, o: Operation, x: Execution) returns (n: Records)
    requires o.id in s.operations && s.operations[o.id] == o && !o.IsTerminal() && o.resourceID in s.resources
    requires CellOk(c, s.resources[o.resourceID], o, UpdatesOf(s, o.resourceID), o.resourceID in s.driftSeen, PublishedOf(s, o.resourceID))
    requires o.resourceID in s.latest && s.latest[o.resourceID] == o.id
    ensures FinishFailed(s, o.resourceID, o, x, Broken(), 1) == Ok(n) && Failed(s, n, o)
  {
    hide CellOk, BuildFinishEvidence, Sanitized, DriftAfter, IsOutputRecoveryFailure, Aligned, AlignedExecution, UpdatesOf, PublishedOf, Broken;
    var rec := s.resources[o.resourceID];
    FinishIsAccepted(c, rec, o, UpdatesOf(s, o.resourceID), o.resourceID in s.driftSeen, PublishedOf(s, o.resourceID), Aligned(1, rec));
    var done := BuildFinishEvidence(o, rec.resource, rec.status, Broken(), Aligned(1, rec)).value;
    FailureLeaves(rec, o, Broken(), Aligned(1, rec), done);
    BrokenIsNoOutputFailure(done.operation);
    n := FinishFailed(s, o.resourceID, o, x, Broken(), 1).value;
  }

  lemma ContextNames(rec: Record, o: Operation, x: Intent)
    requires ContextFits(rec, o, x)
    ensures x.operationID == o.id
  {
  }

  lemma FinishIsAccepted(c: Catalog, rec: Record, o: Operation, updates: nat, drifted: bool, published: Option<Published>, at: Time)
    requires CellOk(c, rec, o, updates, drifted, published) && !o.IsTerminal() && at == Aligned(1, rec)
    ensures BuildFinishEvidence(o, rec.resource, rec.status, Broken(), at).Ok?
    ensures !Broken().succeeded && Broken().facts == NO_FACTS
  {
    hide LifecycleRuns.Coherent, BuildFinishEvidence, EngineOutcome, IsOutputRecoveryFailure;
    BrokenIsNoOutputFailure(o.(failure := Some(Failure(Broken().reason, Broken().message))));
    FinishNeverErrors(o, rec.resource, rec.status, Broken(), at);
  }

  // ------------------------------------------------------------------ deletes

  function DeleteOf(s: Records, id: ResourceID, operationID: OperationID, eventID: EventID): ExistingRequest
    requires id in s.resources
  {
    ExistingRequest(Anyone({}), id, s.resources[id].resource.generation, DeleteIt, operationID, eventID, Now(s, id), true, true)
  }

  lemma DeleteIsAdmitted(s: Records, c: Catalog, id: ResourceID, operationID: OperationID, eventID: EventID) returns (n: Records)
    requires Invariant(s, c) && id in s.resources && LatestFor(s, id).Some? && LatestFor(s, id).value.IsTerminal()
    requires s.resources[id].status.state.RsReady? || s.resources[id].status.state.RsFailed?
    requires s.resources[id].resource.typeRef in c && Delete in c[s.resources[id].resource.typeRef].supported
    requires !HasInbound(s, id) && Usable(s, operationID, eventID)
    ensures var a := AdmitExisting(s, c, DeleteOf(s, id, operationID, eventID)); a.Ok? && a.value.records == n
    ensures Joined(s, n, id, operationID, Delete) && n.desired == s.desired
    ensures n.resources[id].resource == s.resources[id].resource
  {
    hide Invariant, AdmitExisting, AdmitDelete, Addable, HasInbound, Joined, Persist, NewExecution;
    var q := DeleteOf(s, id, operationID, eventID);
    DeleteIsAccepted(s, c, id, q);
    var t := DeleteTransition(s, c, q);
    var rec := s.resources[id];
    n := AdmitDelete(s, c, q).value.records;
    PersistJoins(s, rec, t, NewExecution(rec, t.operation), DesiredAfter(s, rec, None), q.caller, DeleteKind(), false);
  }

  lemma DeleteIsAccepted(s: Records, c: Catalog, id: ResourceID, q: ExistingRequest)
    requires Invariant(s, c) && id in s.resources && LatestFor(s, id).Some? && LatestFor(s, id).value.IsTerminal()
    requires s.resources[id].status.state.RsReady? || s.resources[id].status.state.RsFailed?
    requires s.resources[id].resource.typeRef in c && Delete in c[s.resources[id].resource.typeRef].supported
    requires !HasInbound(s, id) && Usable(s, q.operationID, q.eventID)
    requires q == DeleteOf(s, id, q.operationID, q.eventID)
    ensures AdmitDelete(s, c, q).Ok? && AdmitExisting(s, c, q) == AdmitDelete(s, c, q)
  {
    hide Books, Links, Bound, LifecycleRuns.Coherent, ActiveFor, Request, HasInbound, ContextFits, StatusWellFormed, InboundCorrupt;
    LatestInBooks(s, c, id);
    AtRest(s, c, id);
    InboundIsSound(s, c, id);
    var rec := s.resources[id];
    var supported := c[rec.resource.typeRef].supported;
    RequestIsAccepted(LifecycleRuns.World(rec.resource, rec.status, LatestFor(s, id)), None, supported, Delete, q.operationID, q.eventID, q.at);
    RequestStarts(rec.resource, supported, rec.status, None, Delete, q.operationID, q.eventID, q.at);
    RequestIsNoRetry(rec.resource, supported, rec.status, Delete, q.operationID, q.eventID, q.at);
  }

  // ------------------------------------------------------------- a concrete run

  lemma TakenCreate(s: Records, c: Catalog, q: CreateRequest)
    requires TransportSafe(q.references)
    ensures Taken(s, c, DoCreate(q)) == RecordsOf(AdmitCreate(s, c, q))
  {
    hide AdmitCreate, AdmitExisting, AdmitRetry, DriveOperation, RecordEvidence, FinishOperation, PassiveObserve;
  }

  lemma TakenDelete(s: Records, c: Catalog, id: ResourceID, operationID: OperationID, eventID: EventID)
    requires id in s.resources
    ensures Taken(s, c, DoExisting(DeleteOf(s, id, operationID, eventID))) == RecordsOf(AdmitExisting(s, c, DeleteOf(s, id, operationID, eventID)))
  {
    hide AdmitCreate, AdmitExisting, AdmitRetry, DriveOperation, RecordEvidence, FinishOperation, PassiveObserve;
  }

  lemma TakenBreak(s: Records, c: Catalog, x: Execution)
    ensures Taken(s, c, BreakStep(x)) == WorkOf(FinishOperation(s, c, x, Broken(), None, "", 1))
  {
    hide AdmitCreate, AdmitExisting, AdmitRetry, DriveOperation, RecordEvidence, FinishOperation, PassiveObserve;
  }

  const KIND := TypeRef("k", "1")
  const OWNER := OwnerRef("o", "o")
  const TYPES: Catalog :=
    map[KIND := TypeContract({Create, Delete}, Some(ReferenceContract([Slot("uses", [KIND], 0, 16)])), None)]

  function CreateOf(id: ResourceID, references: Submitted, operationID: OperationID): CreateRequest {
    CreateRequest(Anyone({"t"}), id, KIND, OWNER, Spec(""), references, operationID, "e", 1, true, true, Some("p"))
  }

  function UsesTarget(): seq<Edge> { [Edge("uses", "t", 0)] }

  lemma NothingIsCanonical()
    ensures CanonicalOf(map[]) == Some([])
  {
    var none: Submitted := map[];
    assert CanonicalFor(none, []);
    CompletedIsCanonical(none, []);
  }

  lemma UseIsCanonical()
    ensures CanonicalOf(map["uses" := ["t"]]) == Some(UsesTarget())
  {
    var one: Submitted := map["uses" := ["t"]];
    CompletedIsCanonical(one, UsesTarget());
  }

  lemma NamesAreUsable()
    ensures forall s: string :: s in {"k", "1", "o", "t", "s", "p", "e", "a", "b", "c", "d"} ==> !Blank(s)
  {
    forall s: string | s in {"k", "1", "o", "t", "s", "p", "e", "a", "b", "c", "d"}
      ensures !Blank(s)
    {
      assert !IsSpace(s[0]);
    }
  }

  lemma UseIsInShape()
    ensures ShapeAccepts(TYPES[KIND].references, "s", UsesTarget())
  {
    var edges := UsesTarget();
    assert edges[..0] == [];
    assert CountSlot(edges, "uses") == 1;
  }

  lemma UseIsSafe(s: Records)
    requires s.desired == map[] && "t" in s.resources && s.resources["t"].resource.owner == OWNER && s.resources["t"].resource.typeRef == KIND
    requires EligibleState(s.resources["t"].status.state)
    ensures AddedEdgesError(s, "s", OWNER, TYPES[KIND].references, UsesTarget(), {"t"}).None?
  {
    var edges := UsesTarget();
    assert DesiredGraph(s.desired) == map[];
    assert edges[..0] == [];
    assert FirstTargets(edges) == ["t"];
    assert DistinctTargets(edges) == ["t"];
    assert Graph.VisitAll(map[], "s", ["t"], 1, Graph.START).0.ProvedSafe?;
  }

  /** The target alone in the records, its latest operation failed, nothing referenced. */
  ghost predicate Alone(n: Records, oid: OperationID, capability: Capability) {
    && n.resources.Keys == {"t"} && n.desired == map[] && n.applied == map[]
    && n.resources["t"].resource.owner == OWNER && n.resources["t"].resource.typeRef == KIND
    && "t" in n.latest && n.latest["t"] == oid && oid in n.operations
    && n.operations[oid].id == oid && n.operations[oid].resourceID == "t" && n.operations[oid].capability == capability
  }

  ghost predicate AloneFailed(n: Records, oid: OperationID, capability: Capability) {
    && Alone(n, oid, capability) && n.operations[oid].state.OpFailed? && !IsOutputRecoveryFailure(n.operations[oid])
    && (n.resources["t"].status.state.RsReady? || n.resources["t"].status.state.RsFailed?)
  }

  lemma JoinedAlone(s: Records, n: Records, oid: OperationID, capability: Capability)
    requires Joined(s, n, "t", oid, capability) && (s.resources.Keys == {"t"} || s.resources.Keys == {})
    requires n.desired == map[] && s.applied == map[]
    requires n.resources["t"].resource.owner == OWNER && n.resources["t"].resource.typeRef == KIND
    ensures Alone(n, oid, capability) && !n.operations[oid].IsTerminal() && n.operations.Keys == s.operations.Keys + {oid}
  {
    assert "t" in n.resources;
    forall id | id in n.resources
      ensures id == "t"
    {
    }
  }

  lemma FailedAlone(s: Records, n: Records, oid: OperationID, capability: Capability)
    requires Alone(s, oid, capability) && Failed(s, n, s.operations[oid])
    ensures AloneFailed(n, oid, capability) && n.operations.Keys == s.operations.Keys
  {
    hide IsOutputRecoveryFailure;
    forall id | id in n.resources
      ensures id == "t"
    {
    }
    ResourceIsSame(s, n, oid);
  }

  lemma ResourceIsSame(s: Records, n: Records, oid: OperationID)
    requires oid in s.operations && Failed(s, n, s.operations[oid]) && s.operations[oid].id == oid
    ensures oid in n.operations && n.operations.Keys == s.operations.Keys && n.latest == s.latest
  {
  }

  /** Creates the target and fails the create. */
  lemma CreateFails() returns (p: Step, f: Step, s1: Records, n: Records)
    ensures p == DoCreate(CreateOf("t", map[], "a"))
    ensures Taken(EMPTY, TYPES, p) == Some(s1) && Taken(s1, TYPES, f) == Some(n)
    ensures f.DoFinish? && Steady(s1, TYPES) && Steady(n, TYPES)
    ensures AloneFailed(n, "a", Create) && n.operations.Keys == {"a"}
  {
    hide Invariant, CleanRows, Taken, AdmitCreate, Joined, Failed, CanonicalOf, Alone, AloneFailed, Blank, ShapeAccepts;
    NamesAreUsable();
    EmptyIsSteady(TYPES);
    NothingIsCanonical();
    var q := CreateOf("t", map[], "a");
    p := DoCreate(q);
    NothingOpposesFirst(q);
    s1 := CreatedRecords(EMPTY, TYPES, q, []);
    TakenCreate(EMPTY, TYPES, q);
    StepKeepsSteady(EMPTY, TYPES, p);
    JoinedAlone(EMPTY, s1, "a", Create);
    n, f := BreaksAlone(s1, "a", Create);
  }

  lemma NothingOpposesFirst(q: CreateRequest)
    requires q == CreateOf("t", map[], "a")
    ensures Unopposed(EMPTY, TYPES, q, []) && ShapeAccepts(TYPES[KIND].references, "t", [])
  {
    hide Blank;
    NamesAreUsable();
  }

  lemma BreaksAlone(s: Records, oid: OperationID, capability: Capability) returns (n: Records, f: Step)
    requires Steady(s, TYPES) && Alone(s, oid, capability) && !s.operations[oid].IsTerminal()
    ensures f.DoFinish? && Taken(s, TYPES, f) == Some(n) && Steady(n, TYPES)
    ensures AloneFailed(n, oid, capability) && n.operations.Keys == s.operations.Keys
  {
    hide Invariant, CleanRows, Taken, FinishOperation, Failed, Books, CellOk, ContextFits, Broken;
    InvariantParts(s, TYPES);
    WorkInHand(s, TYPES, oid);
    f := BreakStep(s.executions[oid]);
    n := FailureIsRecorded(s, TYPES, s.operations[oid], s.executions[oid]);
    TakenBreak(s, TYPES, s.executions[oid]);
    StepKeepsSteady(s, TYPES, f);
    FailedAlone(s, n, oid, capability);
  }

  /** Deletes the target and fails the delete. */
  lemma DeleteFails(s: Records) returns (p: Step, f: Step, s3: Records, n: Records)
    requires Steady(s, TYPES) && AloneFailed(s, "a", Create) && s.operations.Keys == {"a"}
    ensures p.DoExisting? && f.DoFinish?
    ensures Taken(s, TYPES, p) == Some(s3) && Taken(s3, TYPES, f) == Some(n)
    ensures Steady(s3, TYPES) && Steady(n, TYPES) && AloneFailed(n, "b", Delete) && n.operations.Keys == {"a", "b"}
  {
    hide Invariant, CleanRows, Taken, AdmitExisting, Joined, HasInbound, IsOutputRecoveryFailure, Blank;
    NamesAreUsable();
    NoRowsNoInbound(s);
    p := DoExisting(DeleteOf(s, "t", "b", "e"));
    s3 := DeleteIsAdmitted(s, TYPES, "t", "b", "e");
    TakenDelete(s, TYPES, "t", "b", "e");
    StepKeepsSteady(s, TYPES, p);
    JoinedAlone(s, s3, "b", Delete);
    n, f := BreaksAlone(s3, "b", Delete);
  }

  lemma NoRowsNoInbound(s: Records)
    requires s.desired == map[] && s.applied == map[]
    ensures !HasInbound(s, "t")
  {
  }

  /** Creates the resource that uses the target. */
  lemma UserIsCreated(s: Records) returns (n: Records)
    requires Steady(s, TYPES) && AloneFailed(s, "b", Delete) && s.operations.Keys == {"a", "b"}
    ensures Taken(s, TYPES, DoCreate(CreateOf("s", map["uses" := ["t"]], "c"))) == Some(n)
    ensures Steady(n, TYPES) && HasInbound(n, "t") && n.operations.Keys == {"a", "b", "c"}
    ensures "t" in n.resources && n.resources["t"] == s.resources["t"]
    ensures LatestFor(n, "t") == Some(s.operations["b"])
  {
    hide Invariant, CleanRows, Taken, AdmitCreate, CanonicalOf, Blank, ShapeAccepts, AddedEdgesError, PutEdges, HasInbound, IsOutputRecoveryFailure, Unopposed;
    NamesAreUsable();
    var q := CreateOf("s", map["uses" := ["t"]], "c");
    UseIsCanonical();
    UseIsInShape();
    UseIsSafe(s);
    UseOpposed(s, q);
    n := CreatedRecords(s, TYPES, q, UsesTarget());
    UseIsTransportSafe();
    TakenCreate(s, TYPES, q);
    StepKeepsSteady(s, TYPES, DoCreate(q));
    UseIsInbound(s, n);
  }

  lemma UseIsTransportSafe()
    ensures TransportSafe(map["uses" := ["t"]])
  {
    assert !IsSpace("uses"[0]) && !IsSpace("t"[0]);
  }

  lemma UseOpposed(s: Records, q: CreateRequest)
    requires q == CreateOf("s", map["uses" := ["t"]], "c") && s.resources.Keys == {"t"} && s.operations.Keys == {"a", "b"}
    requires AddedEdgesError(s, "s", OWNER, TYPES[KIND].references, UsesTarget(), {"t"}).None?
    ensures Unopposed(s, TYPES, q, UsesTarget())
  {
    hide Blank, AddedEdgesError;
    NamesAreUsable();
  }

  lemma UseIsInbound(s: Records, n: Records)
    requires n.desired == PutEdges(s.desired, "s", 1, UsesTarget())
    ensures HasInbound(n, "t")
  {
    assert n.desired["s"][0].target == "t";
    assert Targets(n.desired["s"], "t");
  }

  lemma PlayOne(s: Records, c: Catalog, step: Step, rest: seq<Step>)
    ensures Play(s, c, [step] + rest) == Play(Next(s, c, step), c, rest)
  {
    hide Next;
    assert ([step] + rest)[1..] == rest;
  }

  /** A referenced resource that is being deleted, six steps from the empty records: it
      is created and fails, its delete fails, another resource is created that uses it,
      and the failed delete is retried. */
  lemma ReferencedTargetIsDeletedAgain() returns (steps: seq<Step>)
    ensures |steps| == 6 && !Protected(Play(EMPTY, TYPES, steps))
  {
    hide Invariant, CleanRows, Taken, Protected, Play, HasInbound, IsOutputRecoveryFailure, Blank, AdmitRetry, ReopensDelete, AloneFailed;
    var p1, p2, s1, s2 := CreateFails();
    var p3, p4, s3, s4 := DeleteFails(s2);
    var s5 := UserIsCreated(s4);
    var p5 := DoCreate(CreateOf("s", map["uses" := ["t"]], "c"));
    var r := RetryRequest(Anyone({}), "b", s5.resources["t"].resource.generation, "d", "e", Now(s5, "t"), None, None);
    var p6 := DoRetry(r);
    RetryReopens(s4, s5, r);
    assert Protected(EMPTY) by { NothingIsProtected(); }
    EmptyIsSteady(TYPES);
    StaysProtected(EMPTY, s1, p1);
    StaysProtected(s1, s2, p2);
    StaysProtected(s2, s3, p3);
    StaysProtected(s3, s4, p4);
    StaysProtected(s4, s5, p5);
    StepProtects(s5, TYPES, p6);
    steps := [p1, p2, p3, p4, p5, p6];
    assert Play(EMPTY, TYPES, steps) == Next(s5, TYPES, p6) by {
      SixSteps(s1, s2, s3, s4, s5, p1, p2, p3, p4, p5, p6);
    }
  }

  lemma RetryReopens(s: Records, n: Records, r: RetryRequest)
    requires Steady(n, TYPES) && AloneFailed(s, "b", Delete) && HasInbound(n, "t") && n.operations.Keys == {"a", "b", "c"}
    requires "t" in n.resources && n.resources["t"] == s.resources["t"] && LatestFor(n, "t") == Some(s.operations["b"])
    requires r == RetryRequest(Anyone({}), "b", n.resources["t"].resource.generation, "d", "e", Now(n, "t"), None, None)
    ensures ReopensDelete(n, TYPES, r)
  {
    hide Invariant, CleanRows, HasInbound, IsOutputRecoveryFailure, Blank, AdmitRetry, ReopensDelete;
    NamesAreUsable();
    RetriedDeleteIsAdmitted(n, TYPES, "t", r);
  }

  lemma NothingIsProtected()
    ensures Protected(EMPTY)
  {
  }

  lemma StaysProtected(s: Records, n: Records, step: Step)
    requires Steady(s, TYPES) && Protected(s) && !step.DoRetry? && Taken(s, TYPES, step) == Some(n)
    ensures Protected(n)
  {
    hide Invariant, CleanRows, Protected, Taken;
    StepProtects(s, TYPES, step);
  }

  lemma SixSteps(s1: Records, s2: Records, s3: Records, s4: Records, s5: Records,
                 p1: Step, p2: Step, p3: Step, p4: Step, p5: Step, p6: Step)
    requires Taken(EMPTY, TYPES, p1) == Some(s1) && Taken(s1, TYPES, p2) == Some(s2)
    requires Taken(s2, TYPES, p3) == Some(s3) && Taken(s3, TYPES, p4) == Some(s4)
    requires Taken(s4, TYPES, p5) == Some(s5)
    ensures Play(EMPTY, TYPES, [p1, p2, p3, p4, p5, p6]) == Next(s5, TYPES, p6)
  {
    hide Taken, Play;
    assert [p1, p2, p3, p4, p5, p6] == [p1] + [p2, p3, p4, p5, p6];
    assert [p2, p3, p4, p5, p6] == [p2] + [p3, p4, p5, p6];
    assert [p3, p4, p5, p6] == [p3] + [p4, p5, p6];
    assert [p4, p5, p6] == [p4] + [p5, p6];
    assert [p5, p6] == [p5] + [p6];
    assert [p6] == [p6] + [];
    PlayOne(EMPTY, TYPES, p1, [p2, p3, p4, p5, p6]);
    PlayOne(s1, TYPES, p2, [p3, p4, p5, p6]);
    PlayOne(s2, TYPES, p3, [p4, p5, p6]);
    PlayOne(s3, TYPES, p4, [p5, p6]);
    PlayOne(s4, TYPES, p5, [p6]);
    PlayOne(s5, TYPES, p6, []);
    assert Play(Next(s5, TYPES, p6), TYPES, []) == Next(s5, TYPES, p6) by { PlayNone(Next(s5, TYPES, p6)); }
  }

  lemma PlayNone(s: Records)
    ensures Play(s, TYPES, []) == s
  {
    hide Next;
  }
}
