/** Every refusal of a request names its cause, in every reachable state. */
module AdmissionRefusals {
  import opened Admission
  import opened AdmissionFacts
  import opened AdmissionRules
  import opened Basics
  import opened Domain
  import opened EngineRules
  import opened Finishing
  import opened Graph
  import opened Lifecycle
  import opened LifecycleRuns
  import opened Provisioning
  import opened References
  import opened Store

  // --------------------------------------------------------------------- keys

  predicate KeyTaken(s: Records, q: Caller) {
    q.key != "" && BindingKey(q.scope, q.key) in s.bindings
  }

  /** The key was bound by another kind of request, or for other content. */
  predicate BoundElsewhere(s: Records, q: Caller, kind: string) {
    KeyTaken(s, q) && (s.bindings[BindingKey(q.scope, q.key)].fingerprint != q.fingerprint || s.bindings[BindingKey(q.scope, q.key)].kind != kind)
  }

  /** The operation is over, or its execution settled without being a mere recovery of outputs:
      then a replay asks for its evidence. */
  predicate AsksForEvidence(o: Operation, x: Execution) {
    o.state in {OpSucceeded, OpFailed, OpCanceled} || (x.state in {AttemptSucceeded, AttemptFailed} && x.intent.recoverySource == None)
  }

  /** The answer of a key in every reachable state: none, a conflict, the bound operation, or
      a refusal over its evidence. */
  lemma KeyAnswersExactly(s: Records, c: Catalog, q: Caller, kind: string)
    requires Invariant(s, c) && KeyTaken(s, q)
    ensures var b := s.bindings[BindingKey(q.scope, q.key)];
            && b.operationID in s.operations && b.operationID in s.executions && b.resourceID in s.resources
            && var o, x, rec := s.operations[b.operationID], s.executions[b.operationID], s.resources[b.resourceID];
            Replay(s, KeyOf(q), q.fingerprint, kind) ==
              if b.fingerprint != q.fingerprint || b.kind != kind then Err(Admission.KeyConflict)
              else if AsksForEvidence(o, x) && !EvidenceAccepted(x, rec.resource, rec.status, o) then Err(EvidenceRejected)
              else Ok(Some(b.operationID))
  {
    hide Books, Links, EvidenceAccepted, ContextFits;
    InvariantParts(s, c);
    var b := s.bindings[BindingKey(q.scope, q.key)];
    BoundIsKnown(s, c, b.operationID, b.resourceID);
  }

  lemma KeyRefusals(s: Records, c: Catalog, q: Caller, kind: string)
    requires Invariant(s, c)
    ensures var r := Replay(s, KeyOf(q), q.fingerprint, kind);
            && (r == Ok(None) <==> !KeyTaken(s, q))
            && (r == Err(Admission.KeyConflict) <==> BoundElsewhere(s, q, kind))
            && (r.Err? ==> r.error == Admission.KeyConflict || r.error == EvidenceRejected)
  {
    hide Invariant, EvidenceAccepted, AsksForEvidence;
    if KeyTaken(s, q) {
      KeyAnswersExactly(s, c, q, kind);
    }
  }

  lemma BoundIsKnown(s: Records, c: Catalog, oid: OperationID, id: ResourceID)
    requires Invariant(s, c) && oid in s.operations && s.operations[oid].resourceID == id && id in s.resources
    ensures s.operations[oid].id == oid && s.resources[id].resource.id == id && oid in s.executions
    ensures ContextFits(s.resources[id], s.operations[oid], s.executions[oid].intent)
  {
    hide CellOk, ContextFits, Links, Bound;
    assert OperationOk(s, oid);
    assert ResourceOk(s, c, id);
  }

  // --------------------------------------------------------- updates and deletes

  /** One of the added edges has a target that is not admissible. */
  ghost predicate TargetBarred(s: Records, owner: OwnerRef, contract: Option<ReferenceContract>, added: seq<Edge>, readable: set<ResourceID>) {
    exists e :: e in added && !TargetAdmissible(s, owner, contract, e, readable)
  }

  lemma EdgeRefusals(s: Records, id: ResourceID, owner: OwnerRef, contract: Option<ReferenceContract>, added: seq<Edge>, readable: set<ResourceID>)
    ensures var r := AddedEdgesError(s, id, owner, contract, added, readable);
            && (r == Some(Admission.InvalidReferences) <==> TargetBarred(s, owner, contract, added, readable))
            && (r == Some(DependencyCycle) ==> CycleVerdict(DesiredGraph(s.desired), id, DistinctTargets(added)).CycleFound?)
            && (r == Some(GraphLimit) ==> CycleVerdict(DesiredGraph(s.desired), id, DistinctTargets(added)).LimitReached?)
            && (r.Some? ==> added != [] && (r.value == Admission.InvalidReferences || r.value == DependencyCycle || r.value == GraphLimit))
  {
    hide TargetEligible, TargetAdmissible, CycleVerdict, DesiredGraph, DistinctTargets;
    forall e
      ensures TargetEligible(s, owner, contract, e, readable) <==> TargetAdmissible(s, owner, contract, e, readable)
    {
      EligibleIsAdmissible(s, owner, contract, e, readable);
    }
    assert forall i :: 0 <= i < |added| ==> added[i] in added;
  }

  predicate NamesAnotherGeneration(s: Records, q: ExistingRequest) {
    q.id in s.resources && s.resources[q.id].resource.generation != q.expectedGeneration
  }

  /** The engine has a reason to object: the type, the state, work in progress, the time, or
      a name that is not set. */
  ghost predicate EngineObjects(s: Records, c: Catalog, q: ExistingRequest, capability: Capability) {
    && q.id in s.resources
    && (|| !Supports(c, s.resources[q.id].resource.typeRef, capability)
        || !AtRest(WorldOf(s, q.id)) || !InTime(WorldOf(s, q.id), q.at) || Blank(q.operationID) || Blank(q.eventID)
        || s.resources[q.id].status.state !in (if capability == Delete then {RsReady, RsFailed} else {RsReady}))
  }

  /** The cause each refusal of an update or delete stands for. */
  ghost predicate ExistingCause(s: Records, c: Catalog, q: ExistingRequest, e: AdmitError) {
    match e
    case InvalidCall => q.expectedGeneration == 0
    case NotFound => q.id !in s.resources
    case Unauthorized => !q.caller.authorized
    case KeyConflict => BoundElsewhere(s, q.caller, if q.change.DeleteIt? then "delete" else "update")
    case EvidenceRejected => KeyTaken(s, q.caller)
    case Conflict => NamesAnotherGeneration(s, q) || q.operationID in s.operations
    case InUse => q.change.DeleteIt? && !(NoRowNames(s.desired, q.id) && NoRowNames(s.applied, q.id))
    case InvalidSpec => q.change.UpdateTo? && !q.specValid
    case PolicyDenied => q.change.UpdateTo? && !q.policyAllows
    case InvalidReferences => q.change.UpdateTo? && q.change.references.Some?
    case DependencyCycle => q.change.UpdateTo? && q.change.references.Some?
    case GraphLimit => q.change.UpdateTo? && q.change.references.Some?
    case MalformedRequest =>
      q.change.UpdateTo? && q.id in s.resources
      && (q.at == 0 || q.at < s.resources[q.id].resource.updatedAt || s.resources[q.id].resource.generation == 0xFFFF_FFFF_FFFF_FFFF)
    case EngineRefused(_) => EngineObjects(s, c, q, if q.change.DeleteIt? then Delete else Update)
    case _ => false
  }

  lemma DeleteRefusals(s: Records, c: Catalog, q: ExistingRequest)
    requires Invariant(s, c) && q.id in s.resources && s.resources[q.id].resource.typeRef in c && q.change.DeleteIt?
    requires AdmitDelete(s, c, q).Err?
    ensures ExistingCause(s, c, q, AdmitDelete(s, c, q).error)
  {
    hide Invariant, Request, ActiveFor, AddOperation, BindingOf, NamedBy, NoRowNames, InboundCorrupt, AtRest, InTime, Blank, Coherent;
    WorldIsCoherent(s, c, q.id);
    var rec := s.resources[q.id];
    EngineTakesExactly(s, c, q.id, c[rec.resource.typeRef].supported, Delete, q.operationID, q.eventID, q.at);
    DeleteStarts(s, c, q, c[rec.resource.typeRef].supported);
    NothingCorrupt(s, c, q.id);
    UnnamedExactly(s.desired, q.id);
    UnnamedExactly(s.applied, q.id);
  }

  lemma UpdateRefusals(s: Records, c: Catalog, q: ExistingRequest)
    requires Invariant(s, c) && q.id in s.resources && s.resources[q.id].resource.typeRef in c && q.change.UpdateTo?
    requires q.change.references.Some? ==> CanonicalOf(q.change.references.value).Some?
    requires AdmitUpdate(s, c, q).Err?
    ensures ExistingCause(s, c, q, AdmitUpdate(s, c, q).error)
  {
    hide Invariant, Request, ActiveFor, AddOperation, BindingOf, AtRest, InTime, Blank, Coherent, CanonicalOf, PutEdges, EffectiveDesired,
         UpdateReferencesError;
    WorldIsCoherent(s, c, q.id);
    var rec := s.resources[q.id];
    ReferenceRefusals(s, c, q);
    SpecMoves(rec.resource, q.change.spec, q.at);
    var u := UpdateSpec(rec.resource, q.change.spec, q.at);
    if u.Ok? {
      EngineTakesUpdate(s, c, q.id, u.value, q.change.spec, c[rec.resource.typeRef].supported, q.operationID, q.eventID, q.at);
      UpdateStarts(s, c, q, u.value, c[rec.resource.typeRef].supported);
    }
  }

  lemma ReferenceRefusals(s: Records, c: Catalog, q: ExistingRequest)
    requires q.id in s.resources && s.resources[q.id].resource.typeRef in c && q.change.UpdateTo?
    requires q.change.references.Some? ==> CanonicalOf(q.change.references.value).Some?
    ensures var r := UpdateReferencesError(s, c, q);
            r.Some? ==> q.change.references.Some? && (r.value == Admission.InvalidReferences || r.value == DependencyCycle || r.value == GraphLimit)
  {
    hide CanonicalOf, ShapeAccepts, WithoutKeys, AddedEdgesError;
    if q.change.references.Some? {
      var rec := s.resources[q.id];
      EdgeRefusals(s, q.id, rec.resource.owner, c[rec.resource.typeRef].references,
                   WithoutKeys(CanonicalOf(q.change.references.value).value, EdgesAt(s.desired, q.id)), q.caller.readable);
    }
  }

  /** A refused update or delete: the error is one of those above, and its cause holds. */
  lemma ExistingRefused(s: Records, c: Catalog, q: ExistingRequest)
    requires Invariant(s, c) && AdmitExisting(s, c, q).Err?
    ensures ExistingCause(s, c, q, AdmitExisting(s, c, q).error)
    ensures (&& q.expectedGeneration != 0 && q.caller.authorized && !KeyTaken(s, q.caller) && NamesAnotherGeneration(s, q)
             && (q.change.UpdateTo? && q.change.references.Some? ==> CanonicalOf(q.change.references.value).Some?))
            ==> AdmitExisting(s, c, q).error == Conflict
  {
    hide Invariant, AdmitDelete, AdmitUpdate, Replay, CanonicalOf, KeyTaken, BoundElsewhere, EngineObjects, NoRowNames;
    KeyRefusals(s, c, q.caller, if q.change.DeleteIt? then DeleteKind() else UpdateKind());
    if q.id in s.resources {
      WorldIsCoherent(s, c, q.id);
      if q.change.DeleteIt? {
        if AdmitDelete(s, c, q).Err? {
          DeleteRefusals(s, c, q);
        }
      } else if q.change.references.None? || CanonicalOf(q.change.references.value).Some? {
        if AdmitUpdate(s, c, q).Err? {
          UpdateRefusals(s, c, q);
        }
      }
    }
  }

  // ------------------------------------------------------------------- creates

  ghost predicate CreateCause(s: Records, c: Catalog, q: CreateRequest, e: AdmitError) {
    match e
    case Unauthorized => !q.caller.authorized
    case KeyConflict => BoundElsewhere(s, q.caller, "create")
    case EvidenceRejected => KeyTaken(s, q.caller)
    case UnknownType => q.typeRef !in c
    case InvalidSpec => !q.specValid
    case PolicyDenied => !q.policyAllows
    case NoProvisioner => q.provisioner.None? || Blank(q.provisioner.value)
    case Conflict => q.id in s.resources || q.operationID in s.operations
    case MalformedRequest => !NamesGiven(q)
    case EngineRefused(_) => !NamesGiven(q) || !Supports(c, q.typeRef, Create) || q.id in s.resources
    case InvalidReferences => !EdgesAcceptable(s, c, q)
    case DependencyCycle => !EdgesAcceptable(s, c, q)
    case GraphLimit => !EdgesAcceptable(s, c, q)
    case _ => false
  }

  lemma NewRefusals(s: Records, c: Catalog, q: CreateRequest, edges: seq<Edge>)
    requires Invariant(s, c) && q.typeRef in c && CanonicalOf(q.references) == Some(edges) && ShapeAccepts(c[q.typeRef].references, q.id, edges)
    requires AdmitNew(s, c, q, edges).Err?
    ensures CreateCause(s, c, q, AdmitNew(s, c, q, edges).error)
  {
    hide Invariant, Request, ActiveFor, AddOperation, BindingOf, AddedEdgesError, PutEdges, Blank, NamesGiven, StatusWellFormed, EdgesAcceptable, ShapeAccepts,
         CanonicalOf, Replay, KeyTaken, BoundElsewhere, NewResource, NewResourceStatus;
    var r := NewResource(q.id, q.typeRef, q.owner, q.spec, q.at);
    var begun := NewResourceStatus(q.id, 0, RsUnknown, [], q.at);
    AcceptableEdges(s, c, q);
    EdgeRefusals(s, q.id, q.owner, c[q.typeRef].references, edges, q.caller.readable);
    ExecutionsHaveOperations(s, c);
    if NamesGiven(q) {
      NewRecords(q);
      GivenNames(q);
    }
    if r.Ok? && begun.Ok? {
      EngineTakesCreate(q, r.value, begun.value, c[q.typeRef].supported);
      if !Blank(q.operationID) && !Blank(q.eventID) {
        MissingNames(q);
      }
    }
    if q.id !in s.resources {
      NoOperationWithoutResource(s, c, q.id);
    }
  }

  /** A refused create: the same. */
  lemma CreateRefused(s: Records, c: Catalog, q: CreateRequest)
    requires Invariant(s, c) && AdmitCreate(s, c, q).Err?
    ensures CreateCause(s, c, q, AdmitCreate(s, c, q).error)
  {
    hide Invariant, AdmitNew, Replay, CanonicalOf, ShapeAccepts, KeyTaken, BoundElsewhere, NamesGiven, Blank;
    KeyRefusals(s, c, q.caller, CreateKind());
    if q.typeRef in c && CanonicalOf(q.references).Some? && ShapeAccepts(c[q.typeRef].references, q.id, CanonicalOf(q.references).value) {
      if AdmitNew(s, c, q, CanonicalOf(q.references).value).Err? {
        NewRefusals(s, c, q, CanonicalOf(q.references).value);
      }
    }
  }

  // ------------------------------------------------------------------- retries

  ghost predicate RetryCause(s: Records, c: Catalog, q: RetryRequest, e: AdmitError) {
    if q.source !in s.operations || s.operations[q.source].resourceID !in s.resources then e == Admission.NotFound
    else
      var o := s.operations[q.source];
      var rec := s.resources[o.resourceID];
      match e
      case Unauthorized => !q.caller.authorized
      case InvalidCall => q.expectedGeneration == 0
      case KeyConflict => BoundElsewhere(s, q.caller, "retry")
      case EvidenceRejected => KeyTaken(s, q.caller)
      case Conflict => rec.resource.generation != q.expectedGeneration || q.operationID in s.operations
      case NotRetryable =>
        || o.state != OpFailed || LatestFor(s, o.resourceID) != Some(o) || !RetryState(o, rec.status.state)
        || !Supports(c, rec.resource.typeRef, o.capability) || (FailedOnOutputs(o) && !RecoveryDocumented(s, q))
      case NoProvisioner => FailedOnOutputs(o) && !MappingOffered(s, q)
      case EngineRefused(_) =>
        !AtRest(WorldOf(s, o.resourceID)) || !InTime(WorldOf(s, o.resourceID), q.at) || Blank(q.operationID) || Blank(q.eventID) || q.operationID == q.source
      case _ => false
  }

  lemma RetryOfRefused(s: Records, c: Catalog, q: RetryRequest)
    requires Invariant(s, c) && q.source in s.operations && s.operations[q.source].resourceID in s.resources
    requires AdmitRetryOf(s, c, q, s.resources[s.operations[q.source].resourceID], s.operations[q.source]).Err?
    ensures RetryCause(s, c, q, AdmitRetryOf(s, c, q, s.resources[s.operations[q.source].resourceID], s.operations[q.source]).error)
  {
    hide Invariant, Request, ActiveFor, AddOperation, BindingOf, RetryExecution, Blank, RecoveryDocumented, MappingOffered, InTime, Coherent, StateAllows,
         RetryRefusal;
    var o := s.operations[q.source];
    WorldIsCoherent(s, c, o.resourceID);
    SourceIsKnown(s, c, q);
    if o.state == OpFailed && LatestFor(s, o.resourceID) == Some(o) {
      RefusalExactly(s, c, q);
      RefusalErrors(s, c, q);
      RetryStateIsAllowed(s, c, o.resourceID, o);
      EngineTakesRetry(s, c, o.resourceID, o, c[s.resources[o.resourceID].resource.typeRef].supported, q.operationID, q.eventID, q.at);
    }
  }

  lemma RefusalErrors(s: Records, c: Catalog, q: RetryRequest)
    requires Invariant(s, c) && q.source in s.operations
    requires s.operations[q.source].resourceID in s.resources && LatestFor(s, s.operations[q.source].resourceID) == Some(s.operations[q.source])
    ensures var o := s.operations[q.source];
            var r := RetryRefusal(s, c, q, s.resources[o.resourceID], o);
            && (r.Some? ==> r.value == NotRetryable || r.value == NoProvisioner)
            && (r == Some(NoProvisioner) ==> FailedOnOutputs(o) && !MappingOffered(s, q))
            && (r == Some(NotRetryable) ==>
                  !Supports(c, s.resources[o.resourceID].resource.typeRef, o.capability) || (FailedOnOutputs(o) && !RecoveryDocumented(s, q)))
            && (r == Some(NoProvisioner) ==> Supports(c, s.resources[o.resourceID].resource.typeRef, o.capability))
  {
    hide Invariant, EvidenceAccepted, ActiveFor, Coherent, Blank, TerminalObservation;
    var o := s.operations[q.source];
    SourceIsKnown(s, c, q);
    WorldIsCoherent(s, c, o.resourceID);
    CapabilityIsKnown(WorldOf(s, o.resourceID));
    RetryTargets(s, c, o);
  }

  lemma RetryTargets(s: Records, c: Catalog, o: Operation)
    requires Invariant(s, c) && o.resourceID in s.resources && LatestFor(s, o.resourceID) == Some(o)
    ensures o.targetGeneration == s.resources[o.resourceID].resource.generation
  {
    hide Links, Bound, OperationOk, CellOk;
    InvariantParts(s, c);
    BooksHold(s, c, o.resourceID);
    LatestBelongs(s, c, o.resourceID);
  }

  /** A refused retry: the same. */
  lemma RetryRefused(s: Records, c: Catalog, q: RetryRequest)
    requires Invariant(s, c) && AdmitRetry(s, c, q).Err?
    ensures RetryCause(s, c, q, AdmitRetry(s, c, q).error)
  {
    hide Invariant, AdmitRetryOf, Replay, KeyTaken, BoundElsewhere, RecoveryDocumented, MappingOffered, Blank, InTime, AtRest, RetryState;
    KeyRefusals(s, c, q.caller, RetryKind());
    if q.source in s.operations && s.operations[q.source].resourceID in s.resources {
      if AdmitRetryOf(s, c, q, s.resources[s.operations[q.source].resourceID], s.operations[q.source]).Err? {
        RetryOfRefused(s, c, q);
      }
    }
  }
}
