/** Admission as the service runs it: checks in order, then writes staged in one
    transaction that commits as a whole or not at all. */
module AdmissionCode {
  import opened Admission
  import opened AdmissionFacts
  import opened Basics
  import opened Domain
  import opened Graph
  import opened Lifecycle
  import opened Ordering
  import opened Provisioning
  import opened References
  import opened Rows
  import opened Store

  /** What the contract constructor guarantees of the catalog's reference contracts. */
  predicate CatalogDeclared(c: Catalog) {
    forall t :: t in c && c[t].references.Some? ==> ContractWellFormed(c[t].references.value)
  }

  // ----------------------------------------------------------------- searches

  method FindActive(s: Records, id: ResourceID) returns (active: Option<Operation>)
    requires forall a, b :: IsActive(s, id, a) && IsActive(s, id, b) ==> a == b
    ensures active == ActiveFor(s, id)
  {
    var left := s.operations.Keys;
    while left != {}
      invariant left <= s.operations.Keys
      invariant forall oid :: oid in s.operations && oid !in left ==> !IsActive(s, id, oid)
      decreases left
    {
      var oid :| oid in left;
      left := left - {oid};
      if s.operations[oid].resourceID == id && !s.operations[oid].IsTerminal() {
        assert IsActive(s, id, oid);
        return Some(s.operations[oid]);
      }
    }
    return None;
  }

  lemma OneActive(s: Records, c: Catalog, id: ResourceID)
    requires Invariant(s, c)
    ensures forall a, b :: IsActive(s, id, a) && IsActive(s, id, b) ==> a == b
  {
    hide Links, Bound, CellOk, ContextFits;
    forall a, b | IsActive(s, id, a) && IsActive(s, id, b)
      ensures a == b
    {
      assert OperationOk(s, a) && OperationOk(s, b);
    }
  }

  method CheckAddedEdges(s: Records, id: ResourceID, owner: OwnerRef, contract: Option<ReferenceContract>, added: seq<Edge>,
                         readable: set<ResourceID>) returns (refused: Option<AdmitError>)
    ensures refused == AddedEdgesError(s, id, owner, contract, added, readable)
  {
    if |added| == 0 {
      return None;
    }
    var eligible := ValidateReferenceTargets(s, owner, contract, added, readable);
    if !eligible {
      return Some(InvalidReferences);
    }
    var targets := DistinctEdgeTargets(added);
    var search := new CycleSearch(DesiredGraph(s.desired), id);
    var verdict := search.WalkAll(targets);
    match verdict
    case ProvedSafe => return None;
    case CycleFound => return Some(DependencyCycle);
    case LimitReached => return Some(GraphLimit);
  }

  // ------------------------------------------------------------------ the service

  /** What a caller gets back: the operation, and whether it was replayed. */
  type Answer = Result<(OperationID, bool), AdmitError>

  ghost predicate Settles(before: Records, spec: AdmitResult, after: Records, r: Answer) {
    match spec
    case Ok(a) => r == Ok((a.operationID, a.replay)) && after == a.records
    case Err(e) => r == Err(e) && after == before
  }

  class Service {
    const catalog: Catalog
    var records: Records

    ghost predicate Valid()
      reads this
    {
      CatalogDeclared(catalog) && Invariant(records, catalog)
    }

    constructor (catalog: Catalog)
      requires CatalogDeclared(catalog)
      ensures Valid() && this.catalog == catalog && records == EMPTY
    {
      this.catalog, records := catalog, EMPTY;
      new;
      EmptyIsInvariant(catalog);
    }

    /** The writes of one admitted transition, in order. A taken identity discards them. */
    method Commit(rec: Record, t: Transition, x: Execution, desired: EdgeTable, q: Caller, kind: string, updated: bool) returns (r: Answer)
      modifies this`records
      ensures Settles(old(records), Persist(old(records), rec, t, x, desired, q, kind, updated), records, r)
    {
      var tx := records;
      var o := t.operation;
      var id := rec.resource.id;
      if updated {
        tx := tx.(updates := tx.updates[id := UpdatesOf(records, id) + 1]);
      }
      tx := tx.(resources := tx.resources[id := rec.(status := t.status)]);
      tx := tx.(desired := desired);
      if o.id in tx.operations || o.id in tx.executions || !RetrySourceFits(records, o) {
        return Err(Conflict);
      }
      tx := tx.(operations := tx.operations[o.id := o], latest := tx.latest[id := o.id]);
      tx := tx.(executions := tx.executions[o.id := x]);
      if q.key != "" {
        tx := tx.(bindings := tx.bindings[BindingKey(q.scope, q.key) := BindingOf(q, kind, o)]);
      }
      records := tx;
      return Ok((o.id, false));
    }

    method CreateNew(q: CreateRequest, edges: seq<Edge>) returns (r: Answer)
      requires Valid() && q.typeRef in catalog
      modifies this`records
      ensures Settles(old(records), AdmitNew(old(records), catalog, q, edges), records, r)
    {
      hide Invariant, AddedEdgesError, Request, Persist;
      var resource := NewResource(q.id, q.typeRef, q.owner, q.spec, q.at);
      if resource.Err? {
        return Err(MalformedRequest);
      }
      var begun := NewResourceStatus(q.id, 0, RsUnknown, [], q.at);
      if begun.Err? {
        return Err(MalformedRequest);
      }
      var t := Request(resource.value, q.typeRef, catalog[q.typeRef].supported, begun.value, None, Create, q.operationID, q.eventID, q.at);
      if t.Err? {
        return Err(EngineRefused(t.error));
      }
      OneActive(records, catalog, q.id);
      var active := FindActive(records, q.id);
      if active.Some? {
        return Err(EngineRefused(OperationActive));
      }
      if q.id in records.resources {
        return Err(Conflict);
      }
      var refused := CheckAddedEdges(records, q.id, q.owner, catalog[q.typeRef].references, edges, q.caller.readable);
      if refused.Some? {
        return Err(refused.value);
      }
      if !q.policyAllows {
        return Err(PolicyDenied);
      }
      if q.provisioner.None? || Blank(q.provisioner.value) {
        return Err(NoProvisioner);
      }
      var rec := Record(resource.value, t.value.status, q.provisioner.value);
      r := Commit(rec, t.value, NewExecution(rec, t.value.operation), PutEdges(records.desired, q.id, 1, edges), q.caller, CreateKind(), false);
    }

    method PersistCreate(q: CreateRequest) returns (r: Answer)
      requires Valid()
      modifies this`records
      ensures Settles(old(records), AdmitCreate(old(records), catalog, q), records, r)
      ensures Valid()
    {
      hide Invariant, AdmitNew, Replay, CanonicalOf, ShapeAccepts, CatalogDeclared;
      ghost var before := records;
      if AdmitCreate(before, catalog, q).Ok? {
        CreateKeepsInvariant(before, catalog, q);
      }
      if !q.caller.authorized {
        return Err(Unauthorized);
      }
      var canonical := CanonicalizeReferences(q.references);
      if canonical.Err? {
        return Err(InvalidReferences);
      }
      var edges := canonical.value;
      var replay := Replay(records, KeyOf(q.caller), q.caller.fingerprint, CreateKind());
      if replay.Err? {
        return Err(replay.error);
      }
      if replay.value.Some? {
        return Ok((replay.value.value, true));
      }
      if q.typeRef !in catalog {
        return Err(UnknownType);
      }
      if !q.specValid {
        return Err(InvalidSpec);
      }
      ContractOf(catalog, q.typeRef);
      var shape := ValidateReferenceShape(catalog[q.typeRef].references, q.id, edges);
      if shape.Err? {
        return Err(InvalidReferences);
      }
      r := CreateNew(q, edges);
    }

    method PersistDelete(q: ExistingRequest) returns (r: Answer)
      requires Valid() && q.id in records.resources && records.resources[q.id].resource.typeRef in catalog
      modifies this`records
      ensures Settles(old(records), AdmitDelete(old(records), catalog, q), records, r)
    {
      hide Invariant, Request, Persist, InboundCorrupt, HasInbound, CatalogDeclared;
      OneActive(records, catalog, q.id);
      var active := FindActive(records, q.id);
      if InboundCorrupt(records, q.id) {
        return Err(InvariantBroken);
      }
      if HasInbound(records, q.id) {
        return Err(InUse);
      }
      var rec := records.resources[q.id];
      var t := Request(rec.resource, rec.resource.typeRef, catalog[rec.resource.typeRef].supported, rec.status, active, Delete,
                       q.operationID, q.eventID, q.at);
      if t.Err? {
        return Err(EngineRefused(t.error));
      }
      r := Commit(rec, t.value, NewExecution(rec, t.value.operation), records.desired, q.caller, DeleteKind(), false);
    }

    /** The desired set of an update, and what adding its new edges amounts to. */
    method UpdatedReferences(q: ExistingRequest) returns (edges: seq<Edge>, refused: Option<AdmitError>)
      requires Valid() && q.id in records.resources && records.resources[q.id].resource.typeRef in catalog && q.change.UpdateTo?
      requires q.change.references.Some? ==> CanonicalOf(q.change.references.value).Some?
      ensures edges == EffectiveDesired(records, catalog, q) && refused == UpdateReferencesError(records, catalog, q)
    {
      hide Invariant, CanonicalOf, AddedEdgesError, CatalogDeclared, ShapeAccepts;
      var rec := records.resources[q.id];
      var contract := catalog[rec.resource.typeRef].references;
      var stored := EdgesAt(records.desired, q.id);
      edges, refused := [], None;
      if q.change.references.None? {
        if contract.Some? {
          edges := stored;
        }
        return;
      }
      var canonical := CanonicalizeReferences(q.change.references.value);
      edges := canonical.value;
      ContractOf(catalog, rec.resource.typeRef);
      var shape := ValidateReferenceShape(contract, q.id, edges);
      if shape.Err? {
        refused := Some(InvalidReferences);
        return;
      }
      var added, removed := ReferenceDifference(stored, edges);
      refused := CheckAddedEdges(records, q.id, rec.resource.owner, contract, added, q.caller.readable);
    }

    method PersistUpdate(q: ExistingRequest) returns (r: Answer)
      requires Valid() && q.id in records.resources && records.resources[q.id].resource.typeRef in catalog && q.change.UpdateTo?
      requires q.change.references.Some? ==> CanonicalOf(q.change.references.value).Some?
      modifies this`records
      ensures Settles(old(records), AdmitUpdate(old(records), catalog, q), records, r)
    {
      hide Invariant, Request, Persist, CanonicalOf, EffectiveDesired, UpdateReferencesError, CatalogDeclared;
      OneActive(records, catalog, q.id);
      var active := FindActive(records, q.id);
      var edges, refused := UpdatedReferences(q);
      if refused.Some? {
        return Err(refused.value);
      }
      if !q.specValid {
        return Err(InvalidSpec);
      }
      var rec := records.resources[q.id];
      var updated := UpdateSpec(rec.resource, q.change.spec, q.at);
      if updated.Err? {
        return Err(MalformedRequest);
      }
      var t := Request(updated.value, updated.value.typeRef, catalog[rec.resource.typeRef].supported, rec.status, active, Update,
                       q.operationID, q.eventID, q.at);
      if t.Err? {
        return Err(EngineRefused(t.error));
      }
      if !q.policyAllows {
        return Err(PolicyDenied);
      }
      var now := rec.(resource := updated.value);
      var desired := records.desired;
      if q.change.references.Some? || edges != [] {
        desired := PutEdges(desired, q.id, updated.value.generation, edges);
      }
      r := Commit(now, t.value, NewExecution(now, t.value.operation), desired, q.caller, UpdateKind(), true);
    }

    method PersistExisting(q: ExistingRequest) returns (r: Answer)
      requires Valid()
      modifies this`records
      ensures Settles(old(records), AdmitExisting(old(records), catalog, q), records, r)
      ensures r.Err? || !Disguising(old(records), q) ==> Valid()
    {
      hide Invariant, AdmitDelete, AdmitUpdate, Replay, CanonicalOf, CatalogDeclared;
      if AdmitExisting(records, catalog, q).Ok? && !Disguising(records, q) {
        ExistingKeepsInvariant(records, catalog, q);
      }
      if q.expectedGeneration == 0 {
        return Err(InvalidCall);
      }
      if q.id !in records.resources {
        return Err(NotFound);
      }
      if !q.caller.authorized {
        return Err(Unauthorized);
      }
      if q.change.UpdateTo? && q.change.references.Some? {
        var canonical := CanonicalizeReferences(q.change.references.value);
        if canonical.Err? {
          return Err(InvalidReferences);
        }
      }
      var replay := Replay(records, KeyOf(q.caller), q.caller.fingerprint, if q.change.DeleteIt? then DeleteKind() else UpdateKind());
      if replay.Err? {
        return Err(replay.error);
      }
      if replay.value.Some? {
        return Ok((replay.value.value, true));
      }
      if records.resources[q.id].resource.generation != q.expectedGeneration {
        return Err(Conflict);
      }
      if records.resources[q.id].resource.typeRef !in catalog {
        return Err(UnknownType);
      }
      if q.change.DeleteIt? {
        r := PersistDelete(q);
      } else {
        r := PersistUpdate(q);
      }
    }

    method PersistRetryOf(q: RetryRequest, rec: Record, failed: Operation) returns (r: Answer)
      requires Valid()
      modifies this`records
      ensures Settles(old(records), AdmitRetryOf(old(records), catalog, q, rec, failed), records, r)
    {
      hide Invariant, Request, Persist, RetryRefusal, RetryExecution, CatalogDeclared;
      if rec.resource.generation != q.expectedGeneration {
        return Err(Conflict);
      }
      if !failed.state.OpFailed? {
        return Err(NotRetryable);
      }
      OneActive(records, catalog, rec.resource.id);
      var active := FindActive(records, rec.resource.id);
      if active.Some? {
        return Err(EngineRefused(OperationActive));
      }
      if LatestFor(records, rec.resource.id) != Some(failed) || failed.targetGeneration != rec.resource.generation {
        return Err(NotRetryable);
      }
      if !RetryStateCompatible(failed.capability, rec.status.state) {
        return Err(NotRetryable);
      }
      var refused := RetryRefusal(records, catalog, q, rec, failed);
      if refused.Some? {
        return Err(refused.value);
      }
      RetryKnowsExecution(records, catalog, q, rec, failed);
      var t := Request(rec.resource, rec.resource.typeRef, catalog[rec.resource.typeRef].supported, rec.status, Some(failed),
                       failed.capability, q.operationID, q.eventID, q.at);
      if t.Err? {
        return Err(EngineRefused(t.error));
      }
      r := Commit(rec, t.value, RetryExecution(rec, failed, records.executions[failed.id], t.value.operation, q.mapping), records.desired,
                  q.caller, RetryKind(), false);
    }

    method PersistRetry(q: RetryRequest) returns (r: Answer)
      requires Valid()
      modifies this`records
      ensures Settles(old(records), AdmitRetry(old(records), catalog, q), records, r)
      ensures Valid()
    {
      hide Invariant, AdmitRetryOf, Replay, CatalogDeclared;
      if AdmitRetry(records, catalog, q).Ok? {
        RetryKeepsInvariant(records, catalog, q);
      }
      if q.source !in records.operations || records.operations[q.source].resourceID !in records.resources {
        return Err(NotFound);
      }
      if !q.caller.authorized {
        return Err(Unauthorized);
      }
      if q.expectedGeneration == 0 {
        return Err(InvalidCall);
      }
      var replay := Replay(records, KeyOf(q.caller), q.caller.fingerprint, RetryKind());
      if replay.Err? {
        return Err(replay.error);
      }
      if replay.value.Some? {
        return Ok((replay.value.value, true));
      }
      var failed := records.operations[q.source];
      r := PersistRetryOf(q, records.resources[failed.resourceID], failed);
    }
  }

  lemma ContractOf(c: Catalog, t: TypeRef)
    requires CatalogDeclared(c) && t in c
    ensures c[t].references.Some? ==> ContractWellFormed(c[t].references.value)
  {
  }
}
