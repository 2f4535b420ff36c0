/** The control plane's records and what holds of them between transactions. Every
    transaction is one atomic step on this value. */
module Store {
  import opened Basics
  import opened Domain
  import opened Graph
  import opened Lifecycle
  import opened LifecycleFacts
  import opened LifecycleRuns
  import opened Outputs
  import opened Provisioning
  import opened References
  import opened StatusStory

  /** What a resource type declares. The catalog never changes while the store lives. */
  datatype TypeContract = TypeContract(
    supported: set<Capability>,
    references: Option<ReferenceContract>,
    outputs: Option<OutputContract>)

  type Catalog = map<TypeRef, TypeContract>

  datatype Record = Record(resource: Resource, status: ResourceStatus, provisionerRef: string)

  datatype Published = Published(operationID: OperationID, mappingRef: string, snapshot: ResourceOutputs)

  datatype BindingKey = BindingKey(scope: string, key: string)

  datatype Binding = Binding(fingerprint: string, kind: string, resourceID: ResourceID, operationID: OperationID)

  type EdgeTable = map<ResourceID, seq<Edge>>

  /** `latest` names the operation inserted last for each resource and `outputs` the
      snapshot of the highest generation. The last two fields only record history:
      how many updates were admitted, and which resources were seen to drift since
      their last success. */
  datatype Records = Records(
    resources: map<ResourceID, Record>,
    operations: map<OperationID, Operation>,
    latest: map<ResourceID, OperationID>,
    executions: map<OperationID, Execution>,
    desired: EdgeTable,
    applied: EdgeTable,
    outputs: map<ResourceID, Published>,
    bindings: map<BindingKey, Binding>,
    updates: map<ResourceID, nat>,
    driftSeen: set<ResourceID>)

  const EMPTY := Records(map[], map[], map[], map[], map[], map[], map[], map[], map[], {})

  // -------------------------------------------------------------- table access

  function EdgesAt(t: EdgeTable, id: ResourceID): seq<Edge> {
    if id in t then t[id] else []
  }

  function Stamped(edges: seq<Edge>, generation: nat): (r: seq<Edge>)
    ensures |r| == |edges|
    ensures forall i :: 0 <= i < |r| ==> r[i] == edges[i].(generation := generation)
  {
    seq(|edges|, i requires 0 <= i < |edges| => edges[i].(generation := generation))
  }

  /** Rewrites one source's rows at a generation; an empty set has no rows. */
  function PutEdges(t: EdgeTable, id: ResourceID, generation: nat, edges: seq<Edge>): EdgeTable {
    if edges == [] then t - {id} else t[id := Stamped(edges, generation)]
  }

  function DesiredGraph(t: EdgeTable): Digraph {
    map id | id in t :: DistinctTargets(t[id])
  }

  predicate Targets(edges: seq<Edge>, target: ResourceID) {
    exists i :: 0 <= i < |edges| && edges[i].target == target
  }

  predicate NamedBy(t: EdgeTable, target: ResourceID) {
    exists id :: id in t && Targets(t[id], target)
  }

  /** Any row of either table names the target. */
  predicate HasInbound(s: Records, target: ResourceID) {
    NamedBy(s.desired, target) || NamedBy(s.applied, target)
  }

  function UpdatesOf(s: Records, id: ResourceID): nat {
    if id in s.updates then s.updates[id] else 0
  }

  function PublishedOf(s: Records, id: ResourceID): Option<Published> {
    if id in s.outputs then Some(s.outputs[id]) else None
  }

  ghost predicate IsActive(s: Records, id: ResourceID, oid: OperationID) {
    oid in s.operations && s.operations[oid].resourceID == id && !s.operations[oid].IsTerminal()
  }

  /** The repository's search for a nonterminal operation of a resource. */
  ghost function ActiveFor(s: Records, id: ResourceID): Option<Operation> {
    if exists oid :: IsActive(s, id, oid) then
      var oid :| IsActive(s, id, oid);
      Some(s.operations[oid])
    else None
  }

  function LatestFor(s: Records, id: ResourceID): Option<Operation> {
    if id in s.latest && s.latest[id] in s.operations then Some(s.operations[s.latest[id]]) else None
  }

  // -------------------------------------------------------- one resource's cell

  predicate RequiresPublishedOutputs(c: Catalog, t: TypeRef) {
    t in c && c[t].outputs.Some? && RequiresOutputs(c[t].outputs.value)
  }

  /** What a succeeded latest operation leaves behind: Reconciled for the current
      generation until drift is seen, required outputs published for it, and a deleted
      resource staying deleted. */
  predicate SuccessOk(c: Catalog, rec: Record, o: Operation, drifted: bool, published: Option<Published>) {
    o.state.OpSucceeded? ==>
      if o.capability.Delete? then rec.status.state.RsDeleted?
      else
        && (Holds(rec.status.conditions, CondReconciled) <==> !drifted)
        && (Holds(rec.status.conditions, CondReconciled) ==>
              FindCondition(rec.status.conditions, CondReconciled).value.observedGeneration == rec.resource.generation)
        && !rec.status.state.RsDeleted?
        && (RequiresPublishedOutputs(c, rec.resource.typeRef) ==>
              && published.Some?
              && published.value.snapshot.observedGeneration == rec.resource.generation
              && Meets(c[rec.resource.typeRef].outputs.value, published.value.snapshot.values))
  }

  /** No snapshot is of a generation that has not succeeded. */
  predicate PublishedOk(rec: Record, o: Operation, published: Option<Published>) {
    published.Some? ==>
      && published.value.snapshot.observedGeneration <= rec.resource.generation
      && (published.value.snapshot.observedGeneration == rec.resource.generation ==>
            o.state.OpSucceeded? || o.capability.Delete?)
  }

  /** The status and the operation agree, the status tells the operation's story, the generation is the observed one and counts the
      updates, and while an operation is in progress its status was last written at its
      latest phase change or one instant later. */
  ghost predicate CellOk(c: Catalog, rec: Record, o: Operation, updates: nat, drifted: bool, published: Option<Published>) {
    && Coherent(World(rec.resource, rec.status, Some(o)))
    && Tells(World(rec.resource, rec.status, Some(o)))
    && rec.resource.generation == rec.status.observedGeneration == 1 + updates
    && SuccessOk(c, rec, o, drifted, published)
    && PublishedOk(rec, o, published)
    && rec.resource.typeRef in c
    && (!o.IsTerminal() ==> rec.status.updatedAt <= o.phaseChangedAt + 1)
  }

  /** The execution was admitted for this operation of this resource, and its intent is
      the current one as long as the generation is. */
  predicate ContextFits(rec: Record, o: Operation, x: Intent) {
    && o.resourceID == rec.resource.id && x.operationID == o.id && x.resourceID == rec.resource.id
    && x.typeRef == rec.resource.typeRef && x.capability == o.capability
    && x.targetGeneration == o.targetGeneration && x.provisionerRef == rec.provisionerRef
    && (rec.resource.generation == x.targetGeneration ==> x.spec == rec.resource.spec)
  }

  // ----------------------------------------------------------------- invariants

  ghost predicate ResourceOk(s: Records, c: Catalog, id: ResourceID) {
    && id in s.resources && s.resources[id].resource.id == id
    && id in s.latest && s.latest[id] in s.operations
    && CellOk(c, s.resources[id], s.operations[s.latest[id]], UpdatesOf(s, id), id in s.driftSeen, PublishedOf(s, id))
  }

  predicate OperationOk(s: Records, oid: OperationID) {
    && oid in s.operations && s.operations[oid].id == oid
    && var o := s.operations[oid];
    && o.resourceID in s.resources
    && o.targetGeneration <= s.resources[o.resourceID].resource.generation
    && (!o.IsTerminal() ==> o.resourceID in s.latest && s.latest[o.resourceID] == oid)
    && oid in s.executions
    && ContextFits(s.resources[o.resourceID], o, s.executions[oid].intent)
  }

  ghost predicate Books(s: Records, c: Catalog) {
    && (forall id :: id in s.resources ==> ResourceOk(s, c, id))
    && (forall oid :: oid in s.operations ==> OperationOk(s, oid))
    && s.latest.Keys <= s.resources.Keys
    && s.executions.Keys <= s.operations.Keys
    && s.updates.Keys <= s.resources.Keys
    && s.outputs.Keys <= s.resources.Keys
    && s.driftSeen <= s.resources.Keys
  }

  /** One resource's rows: same-owner targets that exist, of a source that is not deleted. */
  predicate RowsOk(s: Records, c: Catalog, id: ResourceID, edges: seq<Edge>, generation: nat) {
    && edges != []
    && id in s.resources && !s.resources[id].status.state.RsDeleted?
    && s.resources[id].resource.typeRef in c && c[s.resources[id].resource.typeRef].references.Some?
    && forall i :: 0 <= i < |edges| ==>
         && edges[i].generation == generation
         && edges[i].target in s.resources
         && s.resources[edges[i].target].resource.owner == s.resources[id].resource.owner
  }

  ghost predicate Links(s: Records, c: Catalog) {
    && (forall id :: id in s.desired ==>
          id in s.resources && RowsOk(s, c, id, s.desired[id], s.resources[id].resource.generation))
    && (forall id :: id in s.applied ==>
          exists g :: RowsOk(s, c, id, s.applied[id], g))
    && Acyclic(DesiredGraph(s.desired))
  }

  ghost predicate Bound(s: Records) {
    forall k :: k in s.bindings ==>
      && s.bindings[k].operationID in s.operations
      && s.operations[s.bindings[k].operationID].resourceID == s.bindings[k].resourceID
      && s.bindings[k].resourceID in s.resources
  }

  ghost predicate Invariant(s: Records, c: Catalog) {
    Books(s, c) && Links(s, c) && Bound(s)
  }

  lemma EmptyIsInvariant(c: Catalog)
    ensures Invariant(EMPTY, c)
  {
  }

  // ----------------------------------------------------- consequences of the books

  /** There is at most one nonterminal operation, and it is the latest. */
  lemma ActiveIsLatest(s: Records, c: Catalog, id: ResourceID)
    requires Books(s, c) && id in s.resources
    ensures LatestFor(s, id).Some?
    ensures ActiveFor(s, id) == (if LatestFor(s, id).value.IsTerminal() then None else LatestFor(s, id))
    ensures forall a, b :: IsActive(s, id, a) && IsActive(s, id, b) ==> a == b
  {
    hide CellOk, ContextFits, ResourceOk, OperationOk;
    LatestBelongs(s, c, id);
    forall oid | IsActive(s, id, oid)
      ensures oid == s.latest[id]
    {
      NonterminalIsLatest(s, oid);
    }
    if !s.operations[s.latest[id]].IsTerminal() {
      assert IsActive(s, id, s.latest[id]);
    }
  }

  lemma NonterminalIsLatest(s: Records, oid: OperationID)
    requires OperationOk(s, oid) && !s.operations[oid].IsTerminal()
    ensures var id := s.operations[oid].resourceID; id in s.latest && s.latest[id] == oid
  {
  }

  lemma LatestBelongs(s: Records, c: Catalog, id: ResourceID)
    requires ResourceOk(s, c, id)
    ensures id in s.latest && s.latest[id] in s.operations && id in s.resources && s.resources[id].resource.id == id
    ensures s.operations[s.latest[id]].resourceID == id
    ensures s.operations[s.latest[id]].targetGeneration == s.resources[id].resource.generation
  {
  }

  /** A resource's generation counts its admitted updates and is always the observed one,
      so no operation in progress targets an older generation. */
  lemma GenerationCountsUpdates(s: Records, c: Catalog, id: ResourceID)
    requires Invariant(s, c) && id in s.resources
    ensures var r := s.resources[id];
            && r.resource.generation == 1 + UpdatesOf(s, id)
            && r.resource.generation == r.status.observedGeneration
            && (ActiveFor(s, id).Some? ==> ActiveFor(s, id).value.targetGeneration == r.resource.generation)
  {
    assert ResourceOk(s, c, id);
    LatestBelongs(s, c, id);
    ActiveIsLatest(s, c, id);
  }

  // ------------------------------------------------------------- what stays put

  /** A resource's record moved on without changing what identifies it. */
  predicate Continues(before: Record, after: Record) {
    && after.resource.id == before.resource.id
    && after.provisionerRef == before.provisionerRef
    && after.resource.typeRef == before.resource.typeRef
    && after.resource.owner == before.resource.owner
    && before.resource.generation <= after.resource.generation
    && (before.resource.generation == after.resource.generation ==> before.resource.spec == after.resource.spec)
  }

  /** An operation nobody touched stays in order while its resource moves on. */
  lemma OperationStaysOk(s: Records, n: Records, oid: OperationID)
    requires OperationOk(s, oid)
    requires oid in n.operations && n.operations[oid] == s.operations[oid]
    requires oid in n.executions && n.executions[oid].intent == s.executions[oid].intent
    requires var id := s.operations[oid].resourceID;
             && id in n.resources && Continues(s.resources[id], n.resources[id])
             && (s.operations[oid].IsTerminal() || (id in n.latest && n.latest[id] == oid))
    ensures OperationOk(n, oid)
  {
  }

  // ------------------------------------------------------------ adding an operation

  /** A new operation, its execution and its status in one write; the resource itself
      may be new. */
  function AddOperation(s: Records, rec: Record, o: Operation, x: Execution, desired: EdgeTable,
                        key: Option<BindingKey>, b: Binding, updated: bool): Records
  {
    var id := rec.resource.id;
    s.(resources := s.resources[id := rec],
       operations := s.operations[o.id := o],
       latest := s.latest[id := o.id],
       executions := s.executions[o.id := x],
       desired := desired,
       bindings := if key.Some? then s.bindings[key.value := b] else s.bindings,
       updates := if updated then s.updates[id := UpdatesOf(s, id) + 1] else s.updates)
  }

  /** The write fits the books: a new identity, nothing in progress, and the same resource
      as before but for its intent. */
  ghost predicate Addable(s: Records, c: Catalog, rec: Record, o: Operation, x: Execution, updated: bool) {
    var id := rec.resource.id;
    && o.id !in s.operations && o.resourceID == id
    && ContextFits(rec, o, x.intent)
    && o.targetGeneration <= rec.resource.generation
    && CellOk(c, rec, o, UpdatesOf(s, id) + (if updated then 1 else 0), id in s.driftSeen, PublishedOf(s, id))
    && (id in s.resources ==>
          && (LatestFor(s, id).Some? ==> LatestFor(s, id).value.IsTerminal())
          && Continues(s.resources[id], rec))
  }

  lemma AddKeepsBooks(s: Records, c: Catalog, rec: Record, o: Operation, x: Execution, desired: EdgeTable,
                      key: Option<BindingKey>, b: Binding, updated: bool)
    requires Books(s, c) && Addable(s, c, rec, o, x, updated)
    ensures Books(AddOperation(s, rec, o, x, desired, key, b, updated), c)
  {
    hide CellOk, ContextFits, Continues, ResourceOk, OperationOk;
    var n := AddOperation(s, rec, o, x, desired, key, b, updated);
    forall other | other in n.resources
      ensures ResourceOk(n, c, other)
    {
      AddKeepsResource(s, c, rec, o, x, desired, key, b, updated, other);
    }
    forall oid | oid in n.operations
      ensures OperationOk(n, oid)
    {
      AddKeepsOperation(s, c, rec, o, x, desired, key, b, updated, oid);
    }
  }

  lemma AddKeepsResource(s: Records, c: Catalog, rec: Record, o: Operation, x: Execution, desired: EdgeTable,
                         key: Option<BindingKey>, b: Binding, updated: bool, other: ResourceID)
    requires Addable(s, c, rec, o, x, updated)
    requires other == rec.resource.id || ResourceOk(s, c, other)
    ensures ResourceOk(AddOperation(s, rec, o, x, desired, key, b, updated), c, other)
  {
    hide CellOk, ContextFits, Continues;
  }

  lemma AddKeepsOperation(s: Records, c: Catalog, rec: Record, o: Operation, x: Execution, desired: EdgeTable,
                          key: Option<BindingKey>, b: Binding, updated: bool, oid: OperationID)
    requires Addable(s, c, rec, o, x, updated)
    requires oid == o.id || OperationOk(s, oid)
    ensures OperationOk(AddOperation(s, rec, o, x, desired, key, b, updated), oid)
  {
    hide CellOk, ContextFits;
    if oid != o.id {
      OperationStaysOk(s, AddOperation(s, rec, o, x, desired, key, b, updated), oid);
    }
  }

  // ----------------------------------------------------------- moving an operation

  /** Progress of the latest operation: its status, its execution, and what a terminal
      outcome does to the reference rows, the outputs and the drift history. */
  function MoveOperation(s: Records, id: ResourceID, status: ResourceStatus, o: Operation, x: Execution,
                         desired: EdgeTable, applied: EdgeTable, outputs: map<ResourceID, Published>, drift: set<ResourceID>):
    Records
    requires id in s.resources
  {
    s.(resources := s.resources[id := s.resources[id].(status := status)],
       operations := s.operations[o.id := o],
       executions := s.executions[o.id := x],
       desired := desired,
       applied := applied,
       outputs := outputs,
       driftSeen := drift)
  }

  ghost predicate Movable(s: Records, c: Catalog, id: ResourceID, status: ResourceStatus, o: Operation, x: Execution,
                          outputs: map<ResourceID, Published>, drift: set<ResourceID>)
  {
    && id in s.resources && id in s.latest && s.latest[id] == o.id && o.id in s.operations
    && o == s.operations[o.id].(state := o.state, phase := o.phase, startedAt := o.startedAt,
                                phaseChangedAt := o.phaseChangedAt, completedAt := o.completedAt, failure := o.failure)
    && o.id in s.executions && x.intent == s.executions[o.id].intent
    && CellOk(c, s.resources[id].(status := status), o, UpdatesOf(s, id), id in drift,
              if id in outputs then Some(outputs[id]) else None)
    && outputs.Keys <= s.outputs.Keys + {id}
    && (forall other :: other != id ==> (other in outputs <==> other in s.outputs))
    && (forall other :: other != id && other in outputs ==> outputs[other] == s.outputs[other])
    && (forall other :: other != id ==> (other in drift <==> other in s.driftSeen))
  }

  lemma MoveKeepsBooks(s: Records, c: Catalog, id: ResourceID, status: ResourceStatus, o: Operation, x: Execution,
                       desired: EdgeTable, applied: EdgeTable, outputs: map<ResourceID, Published>, drift: set<ResourceID>)
    requires Books(s, c) && Movable(s, c, id, status, o, x, outputs, drift)
    ensures Books(MoveOperation(s, id, status, o, x, desired, applied, outputs, drift), c)
  {
    hide CellOk, ContextFits, ResourceOk, OperationOk, Movable;
    MovedKeys(s, c, id, status, o, x, outputs, drift);
    LatestBelongs(s, c, id);
    var n := MoveOperation(s, id, status, o, x, desired, applied, outputs, drift);
    forall other | other in n.resources
      ensures ResourceOk(n, c, other)
    {
      LatestBelongs(s, c, other);
      MoveKeepsResource(s, c, id, status, o, x, desired, applied, outputs, drift, other);
    }
    forall oid | oid in n.operations
      ensures OperationOk(n, oid)
    {
      MoveKeepsOperation(s, c, id, status, o, x, desired, applied, outputs, drift, oid);
    }
  }

  lemma MovedKeys(s: Records, c: Catalog, id: ResourceID, status: ResourceStatus, o: Operation, x: Execution,
                  outputs: map<ResourceID, Published>, drift: set<ResourceID>)
    requires Books(s, c) && Movable(s, c, id, status, o, x, outputs, drift)
    ensures o.id in s.operations && o.id in s.executions && id in s.resources && id in s.latest && s.latest[id] == o.id
    ensures outputs.Keys <= s.resources.Keys && drift <= s.resources.Keys
  {
    hide CellOk, ResourceOk, OperationOk;
    forall other | other in drift
      ensures other in s.resources
    {
    }
  }

  lemma MoveKeepsResource(s: Records, c: Catalog, id: ResourceID, status: ResourceStatus, o: Operation, x: Execution,
                          desired: EdgeTable, applied: EdgeTable, outputs: map<ResourceID, Published>, drift: set<ResourceID>,
                          other: ResourceID)
    requires Movable(s, c, id, status, o, x, outputs, drift)
    requires ResourceOk(s, c, other) && s.operations[s.latest[other]].resourceID == other
    requires s.operations[o.id].resourceID == id && s.resources[id].resource.id == id
    ensures ResourceOk(MoveOperation(s, id, status, o, x, desired, applied, outputs, drift), c, other)
  {
    hide CellOk, ContextFits;
  }

  lemma MoveKeepsOperation(s: Records, c: Catalog, id: ResourceID, status: ResourceStatus, o: Operation, x: Execution,
                           desired: EdgeTable, applied: EdgeTable, outputs: map<ResourceID, Published>, drift: set<ResourceID>,
                           oid: OperationID)
    requires Movable(s, c, id, status, o, x, outputs, drift)
    requires OperationOk(s, oid) && s.operations[o.id].resourceID == id
    ensures OperationOk(MoveOperation(s, id, status, o, x, desired, applied, outputs, drift), oid)
  {
    hide CellOk;
    if oid != o.id {
      OperationStaysOk(s, MoveOperation(s, id, status, o, x, desired, applied, outputs, drift), oid);
    }
  }

  // ------------------------------------------------------------ changing a status

  /** A status written without any operation changing: passive facts, a dependency wait. */
  function PutStatus(s: Records, id: ResourceID, status: ResourceStatus, drift: set<ResourceID>): Records
    requires id in s.resources
  {
    s.(resources := s.resources[id := s.resources[id].(status := status)], driftSeen := drift)
  }

  lemma StatusKeepsBooks(s: Records, c: Catalog, id: ResourceID, status: ResourceStatus, drift: set<ResourceID>)
    requires Books(s, c) && id in s.resources && id in s.latest && s.latest[id] in s.operations
    requires CellOk(c, s.resources[id].(status := status), s.operations[s.latest[id]], UpdatesOf(s, id), id in drift, PublishedOf(s, id))
    requires forall other :: other != id ==> (other in drift <==> other in s.driftSeen)
    ensures Books(PutStatus(s, id, status, drift), c)
  {
    hide CellOk, ContextFits, ResourceOk, OperationOk;
    var n := PutStatus(s, id, status, drift);
    forall other | other in n.resources
      ensures ResourceOk(n, c, other)
    {
      StatusKeepsResource(s, c, id, status, drift, other);
    }
    forall oid | oid in n.operations
      ensures OperationOk(n, oid)
    {
      StatusKeepsOperation(s, c, id, status, drift, oid);
    }
    forall other | other in n.driftSeen
      ensures other in n.resources
    {
    }
  }

  lemma StatusKeepsResource(s: Records, c: Catalog, id: ResourceID, status: ResourceStatus, drift: set<ResourceID>, other: ResourceID)
    requires ResourceOk(s, c, other) && ResourceOk(s, c, id)
    requires CellOk(c, s.resources[id].(status := status), s.operations[s.latest[id]], UpdatesOf(s, id), id in drift, PublishedOf(s, id))
    requires other != id ==> (other in drift <==> other in s.driftSeen)
    ensures ResourceOk(PutStatus(s, id, status, drift), c, other)
  {
    hide CellOk, UpdatesOf, PublishedOf;
    var n := PutStatus(s, id, status, drift);
    SameHistory(s, n, other);
  }

  lemma SameHistory(s: Records, n: Records, id: ResourceID)
    requires n.updates == s.updates && n.outputs == s.outputs
    ensures UpdatesOf(n, id) == UpdatesOf(s, id) && PublishedOf(n, id) == PublishedOf(s, id)
  {
  }

  lemma StatusKeepsOperation(s: Records, c: Catalog, id: ResourceID, status: ResourceStatus, drift: set<ResourceID>, oid: OperationID)
    requires id in s.resources && OperationOk(s, oid)
    ensures OperationOk(PutStatus(s, id, status, drift), oid)
  {
    OperationStaysOk(s, PutStatus(s, id, status, drift), oid);
  }
}
