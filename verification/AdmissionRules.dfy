/** When a request is admitted as new in a reachable state, and what its transaction then
    writes: conditions a caller can check on the records, and the records after it. */
module AdmissionRules {
  import opened Admission
  import opened AdmissionFacts
  import opened Basics
  import opened Domain
  import opened EngineRules
  import opened Finishing
  import opened Graph
  import opened Lifecycle
  import opened LifecycleRuns
  import opened Provisioning
  import opened References
  import opened Store

  /** The transaction took the request in, and not because its key was bound. */
  predicate AdmittedAnew(r: AdmitResult) {
    r.Ok? && !r.value.replay
  }

  /** The caller names no key, or one that is free. */
  predicate KeyFree(s: Records, q: Caller) {
    q.key == "" || BindingKey(q.scope, q.key) !in s.bindings
  }

  lemma FreeKeyResolves(s: Records, q: Caller, kind: string)
    ensures Replay(s, KeyOf(q), q.fingerprint, kind) == Ok(None) <==> KeyFree(s, q)
  {
    hide ContextFits, EvidenceAccepted, NeedsEvidence;
  }

  // ------------------------------------------------------------- references

  /** The target is there, of the same owner, of a type the slot takes, neither deleted nor
      being deleted, and the caller may read it. */
  predicate TargetAdmissible(s: Records, owner: OwnerRef, contract: Option<ReferenceContract>, e: Edge, readable: set<ResourceID>) {
    && contract.Some? && e.target in s.resources && e.target in readable
    && s.resources[e.target].resource.owner == owner
    && s.resources[e.target].status.state in {RsUnknown, RsPending, RsReady, RsFailed}
    && exists i :: 0 <= i < |contract.value.slots| && Declares(contract.value.slots, e.slot, contract.value.slots[i])
                   && s.resources[e.target].resource.typeRef in contract.value.slots[i].allowed
  }

  lemma EligibleIsAdmissible(s: Records, owner: OwnerRef, contract: Option<ReferenceContract>, e: Edge, readable: set<ResourceID>)
    ensures TargetEligible(s, owner, contract, e, readable) <==> TargetAdmissible(s, owner, contract, e, readable)
  {
    hide FindSlot, Declares;
    if contract.Some? {
      var slots := contract.value.slots;
      forall slot
        ensures FindSlot(slots, e.slot) == Some(slot) <==> Declares(slots, e.slot, slot)
      {
        FoundIsFirst(slots, e.slot, slot);
      }
    }
  }

  /** Added edges are admitted exactly when each of their targets is admissible and the
      search proved that they close no cycle. */
  lemma AddedEdgesAdmittedExactly(s: Records, id: ResourceID, owner: OwnerRef, contract: Option<ReferenceContract>, added: seq<Edge>,
                                  readable: set<ResourceID>)
    ensures AddedEdgesError(s, id, owner, contract, added, readable).None? <==>
              || added == []
              || (&& (forall e :: e in added ==> TargetAdmissible(s, owner, contract, e, readable))
                  && CycleVerdict(DesiredGraph(s.desired), id, DistinctTargets(added)).ProvedSafe?)
  {
    hide TargetEligible, TargetAdmissible, CycleVerdict, DesiredGraph, DistinctTargets;
    forall e
      ensures TargetEligible(s, owner, contract, e, readable) <==> TargetAdmissible(s, owner, contract, e, readable)
    {
      EligibleIsAdmissible(s, owner, contract, e, readable);
    }
    assert forall i :: 0 <= i < |added| ==> added[i] in added;
  }

  // ------------------------------------------------------------- deletes, updates

  /** The resource's records as the engine sees them. */
  ghost function WorldOf(s: Records, id: ResourceID): World
    requires id in s.resources
  {
    World(s.resources[id].resource, s.resources[id].status, LatestFor(s, id))
  }

  lemma WorldIsCoherent(s: Records, c: Catalog, id: ResourceID)
    requires Invariant(s, c) && id in s.resources
    ensures LatestFor(s, id).Some? && Coherent(WorldOf(s, id))
    ensures ActiveFor(s, id) == (if AtRest(WorldOf(s, id)) then None else LatestFor(s, id))
    ensures s.resources[id].resource.id == id
    ensures s.resources[id].resource.generation == s.resources[id].status.observedGeneration
    ensures LatestFor(s, id).value.resourceID == id
    ensures s.resources[id].resource.typeRef in c
    ensures s.executions.Keys <= s.operations.Keys
  {
    hide Links, Bound, OperationOk, Coherent, ActiveFor, UpdatesOf, PublishedOf;
    InvariantParts(s, c);
    ActiveIsLatest(s, c, id);
    LatestBelongs(s, c, id);
    CellOf(s, c, id);
  }

  /** What every change of an existing resource asks for: the stored generation named, an
      authorized caller, a free key and operation name, a resource at rest, and a time
      after everything recorded. */
  ghost predicate ChangeAsked(s: Records, q: ExistingRequest) {
    && q.id in s.resources && q.caller.authorized && KeyFree(s, q.caller)
    && 0 < q.expectedGeneration == s.resources[q.id].resource.generation
    && q.operationID !in s.operations && !Blank(q.operationID) && !Blank(q.eventID)
    && AtRest(WorldOf(s, q.id)) && InTime(WorldOf(s, q.id), q.at)
  }

  lemma EngineTakesExactly(s: Records, c: Catalog, id: ResourceID, supported: set<Capability>, capability: Capability,
                           operationID: OperationID, eventID: EventID, at: Time)
    requires Invariant(s, c) && id in s.resources
    ensures var rec := s.resources[id];
            Request(rec.resource, rec.resource.typeRef, supported, rec.status, ActiveFor(s, id), capability, operationID, eventID, at).Ok? <==>
              && capability in supported && AtRest(WorldOf(s, id)) && InTime(WorldOf(s, id), at)
              && StateAllows(WorldOf(s, id), capability, false)
              && !Blank(operationID) && !Blank(eventID)
  {
    hide Invariant, Coherent, Request, StateAllows, InTime, ActiveFor;
    WorldIsCoherent(s, c, id);
    var w := WorldOf(s, id);
    RequestAcceptedExactly(w, supported, !AtRest(w), capability, operationID, eventID, at);
    assert AtRest(w) ==> !Repeats(w, false, capability);
  }

  predicate Supports(c: Catalog, t: TypeRef, capability: Capability) {
    t in c && capability in c[t].supported
  }

  /** No row of the table names the target. */
  predicate NoRowNames(t: EdgeTable, target: ResourceID) {
    forall source :: source in t ==> forall e :: e in t[source] ==> e.target != target
  }

  lemma UnnamedExactly(t: EdgeTable, target: ResourceID)
    ensures NamedBy(t, target) <==> !NoRowNames(t, target)
  {
    forall source | source in t
      ensures Targets(t[source], target) <==> exists e :: e in t[source] && e.target == target
    {
      if Targets(t[source], target) {
        var i :| 0 <= i < |t[source]| && t[source][i].target == target;
        assert t[source][i] in t[source];
      }
    }
  }

  /** A delete is admitted exactly as asked for, of a Ready or Failed resource whose type can
      be deleted and which no reference row names. */
  lemma DeleteAdmittedExactly(s: Records, c: Catalog, q: ExistingRequest)
    requires Invariant(s, c) && q.change.DeleteIt?
    ensures AdmittedAnew(AdmitExisting(s, c, q)) <==>
              && ChangeAsked(s, q)
              && Supports(c, s.resources[q.id].resource.typeRef, Delete)
              && s.resources[q.id].status.state in {RsReady, RsFailed}
              && NoRowNames(s.desired, q.id) && NoRowNames(s.applied, q.id)
  {
    hide Invariant, Replay, Request, AtRest, InTime, Coherent, ActiveFor, AddOperation, BindingOf, NamedBy, NoRowNames, InboundCorrupt;
    FreeKeyResolves(s, q.caller, DeleteKind());
    UnnamedExactly(s.desired, q.id);
    UnnamedExactly(s.applied, q.id);
    if q.id in s.resources {
      NothingCorrupt(s, c, q.id);
      WorldIsCoherent(s, c, q.id);
      var rec := s.resources[q.id];
      EngineTakesExactly(s, c, q.id, c[rec.resource.typeRef].supported, Delete, q.operationID, q.eventID, q.at);
      DeleteStarts(s, c, q, c[rec.resource.typeRef].supported);
    }
  }

  /** An accepted request of a resource at rest starts the operation it names, no retry. */
  lemma RequestIsFresh(w: World, supported: set<Capability>, capability: Capability, operationID: OperationID, eventID: EventID, at: Time,
                       t: Transition)
    requires Coherent(w)
    requires Request(w.resource, w.resource.typeRef, supported, w.status, None, capability, operationID, eventID, at) == Ok(t)
    ensures t.operation == Operation(operationID, w.resource.id, capability, w.resource.generation, "", OpPending, Requested, at, 0, at, 0, None)
    ensures t.status.observedGeneration == w.resource.generation && t.status.updatedAt == at
    ensures t.status.state == (if capability == Create then RsPending else if capability == Delete then RsDeleting else RsReady)
  {
    hide Coherent, Request;
    var step := DoRequest(supported, false, capability, operationID, eventID, at);
    RequestStartsOperation(w, step, World(w.resource, t.status, Some(t.operation)));
  }

  /** The references an update brings are acceptable: in shape, and for the edges whose key
      is not stored, in their targets and the cycles they would close. */
  ghost predicate ReferencesAcceptable(s: Records, c: Catalog, q: ExistingRequest) {
    && q.id in s.resources && s.resources[q.id].resource.typeRef in c
    && var rec := s.resources[q.id];
    var contract := c[rec.resource.typeRef].references;
    q.change.UpdateTo? && q.change.references.Some? ==>
      && CanonicalOf(q.change.references.value).Some?
      && var edges := CanonicalOf(q.change.references.value).value;
      var added := WithoutKeys(edges, EdgesAt(s.desired, q.id));
      && ShapeAccepts(contract, q.id, edges)
      && (added == []
          || ((forall e :: e in added ==> TargetAdmissible(s, rec.resource.owner, contract, e, q.caller.readable))
              && CycleVerdict(DesiredGraph(s.desired), q.id, DistinctTargets(added)).ProvedSafe?))
  }

  lemma AcceptableReferences(s: Records, c: Catalog, q: ExistingRequest)
    requires q.id in s.resources && s.resources[q.id].resource.typeRef in c && q.change.UpdateTo?
    requires q.change.references.Some? ==> CanonicalOf(q.change.references.value).Some?
    ensures UpdateReferencesError(s, c, q).None? <==> ReferencesAcceptable(s, c, q)
  {
    hide CanonicalOf, ShapeAccepts, WithoutKeys, CycleVerdict, DesiredGraph, DistinctTargets, AddedEdgesError, TargetAdmissible;
    if q.change.references.Some? {
      var rec := s.resources[q.id];
      AddedEdgesAdmittedExactly(s, q.id, rec.resource.owner, c[rec.resource.typeRef].references,
                                WithoutKeys(CanonicalOf(q.change.references.value).value, EdgesAt(s.desired, q.id)), q.caller.readable);
    }
  }

  lemma UpdatedWorld(s: Records, c: Catalog, id: ResourceID, spec: Spec, at: Time, r: Resource)
    requires Invariant(s, c) && id in s.resources && UpdateSpec(s.resources[id].resource, spec, at) == Ok(r)
    ensures LatestFor(s, id).Some? && Coherent(World(r, s.resources[id].status, LatestFor(s, id)))
  {
    hide Invariant, Coherent, ActiveFor;
    WorldIsCoherent(s, c, id);
    StepKeepsCoherent(WorldOf(s, id), DoUpdateSpec(spec, at));
  }

  lemma EngineTakesUpdate(s: Records, c: Catalog, id: ResourceID, r: Resource, spec: Spec, supported: set<Capability>,
                          operationID: OperationID, eventID: EventID, at: Time)
    requires Invariant(s, c) && id in s.resources && UpdateSpec(s.resources[id].resource, spec, at) == Ok(r)
    ensures Request(r, r.typeRef, supported, s.resources[id].status, ActiveFor(s, id), Update, operationID, eventID, at).Ok? <==>
              && Update in supported && AtRest(WorldOf(s, id)) && InTime(WorldOf(s, id), at)
              && s.resources[id].status.state == RsReady && !Blank(operationID) && !Blank(eventID)
  {
    hide Invariant, Coherent, Request, ActiveFor;
    WorldIsCoherent(s, c, id);
    UpdatedWorld(s, c, id, spec, at, r);
    var w := World(r, s.resources[id].status, LatestFor(s, id));
    RequestAcceptedExactly(w, supported, !AtRest(w), Update, operationID, eventID, at);
    assert AtRest(w) ==> !Repeats(w, false, Update);
  }

  /** An update is admitted exactly as asked for, of a Ready resource whose type can be
      updated, with a valid specification, acceptable references and the policy's consent. */
  lemma UpdateAdmittedExactly(s: Records, c: Catalog, q: ExistingRequest)
    requires Invariant(s, c) && q.change.UpdateTo?
    ensures AdmittedAnew(AdmitExisting(s, c, q)) <==>
              && ChangeAsked(s, q)
              && Supports(c, s.resources[q.id].resource.typeRef, Update)
              && s.resources[q.id].status.state == RsReady
              && s.resources[q.id].resource.generation != 0xFFFF_FFFF_FFFF_FFFF
              && q.specValid && q.policyAllows && ReferencesAcceptable(s, c, q)
  {
    hide Invariant, Replay, Request, AtRest, Coherent, ActiveFor, AddOperation, BindingOf, UpdateReferencesError, ReferencesAcceptable,
         EffectiveDesired, PutEdges, CanonicalOf;
    FreeKeyResolves(s, q.caller, UpdateKind());
    if q.id in s.resources {
      WorldIsCoherent(s, c, q.id);
      var rec := s.resources[q.id];
      if q.change.references.Some? && CanonicalOf(q.change.references.value).None? {
        CanonicalNeeded(s, c, q);
      } else {
        AcceptableReferences(s, c, q);
        SpecMoves(rec.resource, q.change.spec, q.at);
        var u := UpdateSpec(rec.resource, q.change.spec, q.at);
        if u.Ok? {
          EngineTakesUpdate(s, c, q.id, u.value, q.change.spec, c[rec.resource.typeRef].supported, q.operationID, q.eventID, q.at);
          UpdateStarts(s, c, q, u.value, c[rec.resource.typeRef].supported);
        }
      }
    }
  }

  lemma CanonicalNeeded(s: Records, c: Catalog, q: ExistingRequest)
    requires q.change.UpdateTo? && q.change.references.Some? && CanonicalOf(q.change.references.value).None?
    ensures !ReferencesAcceptable(s, c, q)
  {
    hide CanonicalOf;
  }

  lemma SpecMoves(r: Resource, spec: Spec, at: Time)
    ensures UpdateSpec(r, spec, at).Ok? <==> 0 < at && r.updatedAt <= at && r.generation != 0xFFFF_FFFF_FFFF_FFFF
    ensures UpdateSpec(r, spec, at).Ok? ==> UpdateSpec(r, spec, at).value == r.(spec := spec, generation := r.generation + 1, updatedAt := at)
  {
  }

  lemma UpdateStarts(s: Records, c: Catalog, q: ExistingRequest, r: Resource, supported: set<Capability>)
    requires Invariant(s, c) && q.id in s.resources && q.change.UpdateTo?
    requires UpdateSpec(s.resources[q.id].resource, q.change.spec, q.at) == Ok(r)
    ensures var t := Request(r, r.typeRef, supported, s.resources[q.id].status, ActiveFor(s, q.id), Update, q.operationID, q.eventID, q.at);
            t.Ok? ==> t.value.operation.id == q.operationID && t.value.operation.retryOf == ""
  {
    hide Invariant, Request, ActiveFor, Coherent;
    var t := Request(r, r.typeRef, supported, s.resources[q.id].status, ActiveFor(s, q.id), Update, q.operationID, q.eventID, q.at);
    if t.Ok? {
      WorldIsCoherent(s, c, q.id);
      UpdatedWorld(s, c, q.id, q.change.spec, q.at, r);
      EngineTakesUpdate(s, c, q.id, r, q.change.spec, supported, q.operationID, q.eventID, q.at);
      RequestIsFresh(World(r, s.resources[q.id].status, LatestFor(s, q.id)), supported, Update, q.operationID, q.eventID, q.at, t.value);
    }
  }

  lemma NothingCorrupt(s: Records, c: Catalog, target: ResourceID)
    requires Invariant(s, c)
    ensures !InboundCorrupt(s, target)
  {
    hide Books, Bound, Acyclic, DesiredGraph, Targets;
  }

  lemma DeleteStarts(s: Records, c: Catalog, q: ExistingRequest, supported: set<Capability>)
    requires Invariant(s, c) && q.id in s.resources
    ensures var rec := s.resources[q.id];
            var t := Request(rec.resource, rec.resource.typeRef, supported, rec.status, ActiveFor(s, q.id), Delete, q.operationID, q.eventID, q.at);
            t.Ok? ==> t.value.operation.id == q.operationID && t.value.operation.retryOf == ""
  {
    hide Invariant, Request, ActiveFor, Coherent;
    var rec := s.resources[q.id];
    var t := Request(rec.resource, rec.resource.typeRef, supported, rec.status, ActiveFor(s, q.id), Delete, q.operationID, q.eventID, q.at);
    if t.Ok? {
      WorldIsCoherent(s, c, q.id);
      EngineTakesExactly(s, c, q.id, supported, Delete, q.operationID, q.eventID, q.at);
      RequestIsFresh(WorldOf(s, q.id), supported, Delete, q.operationID, q.eventID, q.at, t.value);
    }
  }

  // ------------------------------------------------------------------- creates

  lemma NoOperationWithoutResource(s: Records, c: Catalog, id: ResourceID)
    requires Invariant(s, c) && id !in s.resources
    ensures ActiveFor(s, id).None?
  {
    hide Links, Bound, ResourceOk, ContextFits;
    InvariantParts(s, c);
    forall oid | oid in s.operations
      ensures s.operations[oid].resourceID != id
    {
      assert OperationOk(s, oid);
    }
  }

  /** The names a new resource is given, and its time, are all set. */
  predicate NamesGiven(q: CreateRequest) {
    && !Blank(q.id) && !Blank(q.typeRef.name) && !Blank(q.typeRef.version) && !Blank(q.owner.kind) && !Blank(q.owner.id)
    && !Blank(q.operationID) && !Blank(q.eventID) && 0 < q.at
  }

  lemma EngineTakesCreate(q: CreateRequest, r: Resource, begun: ResourceStatus, supported: set<Capability>)
    requires NewResource(q.id, q.typeRef, q.owner, q.spec, q.at) == Ok(r)
    requires NewResourceStatus(q.id, 0, RsUnknown, [], q.at) == Ok(begun)
    ensures var t := Request(r, q.typeRef, supported, begun, None, Create, q.operationID, q.eventID, q.at);
            && (t.Ok? <==> Create in supported && !Blank(q.operationID) && !Blank(q.eventID))
            && (t.Ok? ==> t.value.operation == Operation(q.operationID, q.id, Create, 1, "", OpPending, Requested, q.at, 0, q.at, 0, None))
  {
    hide Coherent, Request, StatusWellFormed;
    var w := World(r, begun, None);
    assert Coherent(w) by { FreshIsCoherent(w); }
    RequestAcceptedExactly(w, supported, false, Create, q.operationID, q.eventID, q.at);
    var t := Request(r, q.typeRef, supported, begun, None, Create, q.operationID, q.eventID, q.at);
    if t.Ok? {
      RequestIsFresh(w, supported, Create, q.operationID, q.eventID, q.at, t.value);
    }
  }

  lemma NewRecords(q: CreateRequest)
    requires NamesGiven(q)
    ensures NewResource(q.id, q.typeRef, q.owner, q.spec, q.at) == Ok(Resource(q.id, q.typeRef, q.owner, 1, q.spec, q.at, q.at))
    ensures NewResourceStatus(q.id, 0, RsUnknown, [], q.at).Ok?
  {
  }

  lemma MissingNames(q: CreateRequest)
    requires NewResource(q.id, q.typeRef, q.owner, q.spec, q.at).Ok? && !Blank(q.operationID) && !Blank(q.eventID)
    ensures NamesGiven(q)
  {
  }

  /** The edges of a new source are acceptable: in shape, in their targets, and in the
      cycles they would close. */
  ghost predicate EdgesAcceptable(s: Records, c: Catalog, q: CreateRequest) {
    && q.typeRef in c && CanonicalOf(q.references).Some?
    && var edges := CanonicalOf(q.references).value;
    var contract := c[q.typeRef].references;
    && ShapeAccepts(contract, q.id, edges)
    && (edges == []
        || ((forall e :: e in edges ==> TargetAdmissible(s, q.owner, contract, e, q.caller.readable))
            && CycleVerdict(DesiredGraph(s.desired), q.id, DistinctTargets(edges)).ProvedSafe?))
  }

  lemma AcceptableEdges(s: Records, c: Catalog, q: CreateRequest)
    requires q.typeRef in c && CanonicalOf(q.references).Some?
    ensures var edges := CanonicalOf(q.references).value;
            var contract := c[q.typeRef].references;
            EdgesAcceptable(s, c, q) <==>
              ShapeAccepts(contract, q.id, edges) && AddedEdgesError(s, q.id, q.owner, contract, edges, q.caller.readable).None?
  {
    hide CanonicalOf, ShapeAccepts, CycleVerdict, DesiredGraph, DistinctTargets, AddedEdgesError, TargetAdmissible;
    AddedEdgesAdmittedExactly(s, q.id, q.owner, c[q.typeRef].references, CanonicalOf(q.references).value, q.caller.readable);
  }

  lemma NewAdmittedExactly(s: Records, c: Catalog, q: CreateRequest, edges: seq<Edge>)
    requires Invariant(s, c) && q.typeRef in c
    ensures AdmittedAnew(AdmitNew(s, c, q, edges)) <==>
              && NamesGiven(q) && Create in c[q.typeRef].supported && q.id !in s.resources && q.operationID !in s.operations
              && AddedEdgesError(s, q.id, q.owner, c[q.typeRef].references, edges, q.caller.readable).None?
              && q.policyAllows && q.provisioner.Some? && !Blank(q.provisioner.value)
  {
    hide Invariant, Request, ActiveFor, AddOperation, BindingOf, AddedEdgesError, PutEdges, StatusWellFormed, Blank, NamesGiven;
    var r := NewResource(q.id, q.typeRef, q.owner, q.spec, q.at);
    var begun := NewResourceStatus(q.id, 0, RsUnknown, [], q.at);
    if NamesGiven(q) {
      NewRecords(q);
      assert !Blank(q.operationID) && !Blank(q.eventID) by { GivenNames(q); }
      EngineTakesCreate(q, r.value, begun.value, c[q.typeRef].supported);
      if q.id !in s.resources {
        NoOperationWithoutResource(s, c, q.id);
      }
      ExecutionsHaveOperations(s, c);
    } else if r.Ok? && begun.Ok? {
      EngineTakesCreate(q, r.value, begun.value, c[q.typeRef].supported);
      if !Blank(q.operationID) && !Blank(q.eventID) {
        MissingNames(q);
      }
    }
  }

  lemma GivenNames(q: CreateRequest)
    requires NamesGiven(q)
    ensures !Blank(q.operationID) && !Blank(q.eventID)
  {
    hide Blank;
  }

  lemma ExecutionsHaveOperations(s: Records, c: Catalog)
    requires Invariant(s, c)
    ensures s.executions.Keys <= s.operations.Keys
  {
    hide Links, Bound, ResourceOk, OperationOk;
  }

  /** A create is admitted exactly for an authorized caller with a free key, new identities,
      a known type that can be created, a valid specification, acceptable references, the
      policy's consent and a provisioner. */
  lemma CreateAdmittedExactly(s: Records, c: Catalog, q: CreateRequest)
    requires Invariant(s, c)
    ensures AdmittedAnew(AdmitCreate(s, c, q)) <==>
              && q.caller.authorized && KeyFree(s, q.caller)
              && NamesGiven(q) && q.id !in s.resources && q.operationID !in s.operations
              && Supports(c, q.typeRef, Create) && q.specValid && q.policyAllows
              && q.provisioner.Some? && !Blank(q.provisioner.value)
              && EdgesAcceptable(s, c, q)
  {
    hide Invariant, Replay, AdmitNew, CanonicalOf, ShapeAccepts, EdgesAcceptable, NamesGiven, Blank, KeyFree, AddedEdgesError;
    FreeKeyResolves(s, q.caller, CreateKind());
    if q.typeRef in c && CanonicalOf(q.references).Some? {
      AcceptableEdges(s, c, q);
      NewAdmittedExactly(s, c, q, CanonicalOf(q.references).value);
    } else if EdgesAcceptable(s, c, q) {
      EdgesNeedBoth(s, c, q);
    }
  }

  lemma EdgesNeedBoth(s: Records, c: Catalog, q: CreateRequest)
    requires EdgesAcceptable(s, c, q)
    ensures q.typeRef in c && CanonicalOf(q.references).Some?
  {
    hide CanonicalOf, ShapeAccepts;
  }

  // ------------------------------------------------------------------- retries

  /** The failure came of outputs that broke their contract. */
  predicate FailedOnOutputs(o: Operation) {
    o.failure.Some? && o.failure.value.reason == "OutputPostconditionRejected"
  }

  /** What a recovery of outputs needs: persisted evidence that the backend succeeded with an
      attempt it was known to have accepted. */
  ghost predicate RecoveryDocumented(s: Records, q: RetryRequest) {
    && q.source in s.operations && q.source in s.executions && s.operations[q.source].resourceID in s.resources
    && var o, x := s.operations[q.source], s.executions[q.source];
    var rec := s.resources[o.resourceID];
    && EvidenceAccepted(x, rec.resource, rec.status, o)
    && x.state == AttemptSucceeded && x.outputs.resolution == ResolutionRejected && x.outputs.failure == o.failure
    && o.capability != Delete && x.intent.provisionerRef != ""
    && q.attempt.Some? && q.attempt.value.operationID == q.source && 0 < x.currentAttempt == q.attempt.value.number
    && (q.attempt.value.state == SubAccepted
        || (q.attempt.value.state == SubUnknown && x.acceptanceConfirmed && x.correlation == CorrFound
            && TerminalObservation(x).Some? && TerminalObservation(x).value.execution.value.state == BackendSucceeded))
    && !Blank(x.outputs.mappingRef)
  }

  /** And a mapping other than the rejected one. */
  predicate MappingOffered(s: Records, q: RetryRequest) {
    q.source in s.executions && q.mapping.Some? && !Blank(q.mapping.value) && q.mapping.value != s.executions[q.source].outputs.mappingRef
  }

  ghost predicate Recoverable(s: Records, q: RetryRequest) {
    RecoveryDocumented(s, q) && MappingOffered(s, q)
  }

  lemma EngineTakesRetry(s: Records, c: Catalog, id: ResourceID, failed: Operation, supported: set<Capability>,
                         operationID: OperationID, eventID: EventID, at: Time)
    requires Invariant(s, c) && id in s.resources && LatestFor(s, id) == Some(failed) && failed.state == OpFailed
    ensures var rec := s.resources[id];
            var t := Request(rec.resource, rec.resource.typeRef, supported, rec.status, Some(failed), failed.capability, operationID, eventID, at);
            && (t.Ok? <==>
                  && failed.capability in supported && InTime(WorldOf(s, id), at)
                  && StateAllows(WorldOf(s, id), failed.capability, true)
                  && !Blank(operationID) && !Blank(eventID) && operationID != failed.id)
            && (t.Ok? ==>
                  t.value.operation == Operation(operationID, id, failed.capability, failed.targetGeneration, failed.id, OpPending, Requested, at, 0, at, 0, None))
  {
    hide Invariant, Coherent, Request, StateAllows, InTime, ActiveFor;
    WorldIsCoherent(s, c, id);
    var w := WorldOf(s, id);
    RequestAcceptedExactly(w, supported, true, failed.capability, operationID, eventID, at);
    var step := DoRequest(supported, true, failed.capability, operationID, eventID, at);
    var t := Request(w.resource, w.resource.typeRef, supported, w.status, Some(failed), failed.capability, operationID, eventID, at);
    if t.Ok? {
      RequestStartsOperation(w, step, World(w.resource, t.value.status, Some(t.value.operation)));
    }
  }

  /** The state in which a failed operation may be retried. */
  predicate RetryState(o: Operation, state: ResourceState) {
    match o.capability
    case Create => state == RsFailed
    case Update => state == RsReady
    case Delete => state == RsReady || state == RsFailed
    case OtherCapability(_) => false
  }

  /** A retry is admitted exactly for the failed latest operation of a resource whose stored
      generation the caller names, in a state that fits, and, when outputs were what
      failed, when they can be recovered. */
  lemma RetryAdmittedExactly(s: Records, c: Catalog, q: RetryRequest)
    requires Invariant(s, c)
    ensures AdmittedAnew(AdmitRetry(s, c, q)) <==>
              && q.source in s.operations && s.operations[q.source].resourceID in s.resources
              && var o := s.operations[q.source];
              var rec := s.resources[o.resourceID];
              && q.caller.authorized && KeyFree(s, q.caller)
              && 0 < q.expectedGeneration == rec.resource.generation
              && o.state == OpFailed && LatestFor(s, o.resourceID) == Some(o) && RetryState(o, rec.status.state)
              && Supports(c, rec.resource.typeRef, o.capability)
              && q.operationID !in s.operations && !Blank(q.operationID) && !Blank(q.eventID) && InTime(WorldOf(s, o.resourceID), q.at)
              && (FailedOnOutputs(o) ==> Recoverable(s, q))
  {
    hide Invariant, Replay, AdmitRetryOf, Blank, KeyFree, Recoverable, InTime, RetryState, Coherent;
    FreeKeyResolves(s, q.caller, RetryKind());
    if q.source in s.operations && s.operations[q.source].resourceID in s.resources {
      RetryOfExactly(s, c, q);
    }
  }

  lemma RetryOfExactly(s: Records, c: Catalog, q: RetryRequest)
    requires Invariant(s, c) && q.source in s.operations && s.operations[q.source].resourceID in s.resources
    ensures var o := s.operations[q.source];
            var rec := s.resources[o.resourceID];
            AdmittedAnew(AdmitRetryOf(s, c, q, rec, o)) <==>
              && q.expectedGeneration == rec.resource.generation
              && o.state == OpFailed && LatestFor(s, o.resourceID) == Some(o) && RetryState(o, rec.status.state)
              && Supports(c, rec.resource.typeRef, o.capability)
              && q.operationID !in s.operations && !Blank(q.operationID) && !Blank(q.eventID) && InTime(WorldOf(s, o.resourceID), q.at)
              && (FailedOnOutputs(o) ==> Recoverable(s, q))
  {
    hide Invariant, Request, ActiveFor, AddOperation, BindingOf, RetryRefusal, RetryExecution, Blank, Recoverable, InTime, Coherent, StateAllows;
    var o := s.operations[q.source];
    var id := o.resourceID;
    var rec := s.resources[id];
    WorldIsCoherent(s, c, id);
    SourceIsKnown(s, c, q);
    if o.state == OpFailed && LatestFor(s, id) == Some(o) {
      RefusalExactly(s, c, q);
      RetryStateIsAllowed(s, c, id, o);
      if rec.resource.typeRef in c {
        EngineTakesRetry(s, c, id, o, c[rec.resource.typeRef].supported, q.operationID, q.eventID, q.at);
      }
    }
  }

  lemma SourceIsKnown(s: Records, c: Catalog, q: RetryRequest)
    requires Invariant(s, c) && q.source in s.operations
    ensures s.operations[q.source].id == q.source && q.source in s.executions
    ensures var o := s.operations[q.source];
            o.resourceID in s.resources && ContextFits(s.resources[o.resourceID], o, s.executions[q.source].intent)
  {
    hide Links, Bound, ResourceOk, ContextFits;
    InvariantParts(s, c);
    assert OperationOk(s, q.source);
  }

  lemma RetryStateIsAllowed(s: Records, c: Catalog, id: ResourceID, o: Operation)
    requires Invariant(s, c) && id in s.resources && LatestFor(s, id) == Some(o) && o.state == OpFailed
    ensures o.targetGeneration == s.resources[id].resource.generation
    ensures RetryState(o, s.resources[id].status.state) <==> RetryStateCompatible(o.capability, s.resources[id].status.state)
    ensures RetryState(o, s.resources[id].status.state) ==> StateAllows(WorldOf(s, id), o.capability, true)
  {
    hide Invariant, Coherent, ActiveFor, Books;
    WorldIsCoherent(s, c, id);
    assert Books(s, c) by { InvariantParts(s, c); }
    assert ResourceOk(s, c, id) by { BooksHold(s, c, id); }
    LatestBelongs(s, c, id);
  }

  lemma BooksHold(s: Records, c: Catalog, id: ResourceID)
    requires Books(s, c) && id in s.resources
    ensures ResourceOk(s, c, id)
  {
  }

  lemma RefusalExactly(s: Records, c: Catalog, q: RetryRequest)
    requires Invariant(s, c) && q.source in s.operations
    requires s.operations[q.source].resourceID in s.resources && LatestFor(s, s.operations[q.source].resourceID) == Some(s.operations[q.source])
    ensures var o := s.operations[q.source];
            var rec := s.resources[o.resourceID];
            RetryRefusal(s, c, q, rec, o).None? <==>
              Supports(c, rec.resource.typeRef, o.capability) && (FailedOnOutputs(o) ==> Recoverable(s, q))
  {
    hide Invariant, EvidenceAccepted, ActiveFor, Coherent, Blank, TerminalObservation;
    var o := s.operations[q.source];
    SourceIsKnown(s, c, q);
    WorldIsCoherent(s, c, o.resourceID);
    CapabilityIsKnown(WorldOf(s, o.resourceID));
    assert o.targetGeneration == s.resources[o.resourceID].resource.generation by {
      assert Books(s, c) by { InvariantParts(s, c); }
      BooksHold(s, c, o.resourceID);
      LatestBelongs(s, c, o.resourceID);
    }
  }

  lemma CapabilityIsKnown(w: World)
    requires Coherent(w) && w.latest.Some?
    ensures !w.latest.value.capability.OtherCapability?
  {
  }
}
