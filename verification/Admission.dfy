/** Admission of creates, updates, deletes and retries: each request is one atomic
    transaction on the records, and a refused one changes nothing. */
module Admission {
  import opened Basics
  import opened Domain
  import opened Finishing
  import opened Graph
  import opened Lifecycle
  import opened Provisioning
  import opened References
  import opened Store

  datatype AdmitError =
    | NotFound | Unauthorized | InvalidCall | KeyConflict | Conflict | UnknownType | InvalidSpec
    | InvalidReferences | DependencyCycle | GraphLimit | InUse | PolicyDenied | NotRetryable
    | NoProvisioner | EvidenceRejected | InvariantBroken | MalformedRequest | EngineRefused(why: EngineError)

  /** Who asks, under which idempotency key, and what the caller may do. Authorization
      answers, spec validation, policy verdicts and provisioner selection are inputs. */
  datatype Caller = Caller(scope: string, key: string, fingerprint: string, authorized: bool, readable: set<ResourceID>)

  function KeyOf(q: Caller): Option<BindingKey> {
    if q.key == "" then None else Some(BindingKey(q.scope, q.key))
  }

  /** The operation a request stands for, new or replayed, and the records after it. */
  datatype Admitted = Admitted(records: Records, operationID: OperationID, replay: bool)

  type AdmitResult = Result<Admitted, AdmitError>

  // ------------------------------------------------------------------ transport

  /** One path segment: no white space, no control character, no slash. */
  predicate PathSegment(id: ResourceID) {
    !Blank(id) && forall i :: 0 <= i < |id| ==> 0x20 < id[i] as int != 0x7f && id[i] != '/'
  }

  /** What the HTTP boundary demands of submitted references, on creates and updates alike. */
  predicate TransportSafe(input: Submitted) {
    forall slot :: slot in input ==> !Blank(slot) && forall i :: 0 <= i < |input[slot]| ==> PathSegment(input[slot][i])
  }

  // -------------------------------------------------------------------- replays

  predicate NeedsEvidence(o: Operation, x: Execution) {
    o.IsTerminal() || (!x.IsOutputRecovery() && x.IsSettled())
  }

  /** Resolves a key: nothing bound, the bound operation, or a refusal. */
  function Replay(s: Records, key: Option<BindingKey>, fingerprint: string, kind: string): Result<Option<OperationID>, AdmitError> {
    if key.None? || key.value !in s.bindings then Ok(None)
    else
      var b := s.bindings[key.value];
      if b.fingerprint != fingerprint || b.kind != kind then Err(KeyConflict)
      else if b.resourceID !in s.resources || b.operationID !in s.operations then Err(NotFound)
      else if s.operations[b.operationID].id != b.operationID || s.resources[b.resourceID].resource.id != b.resourceID
              || s.operations[b.operationID].resourceID != b.resourceID then Err(InvalidCall)
      else if b.operationID !in s.executions then Err(NotFound)
      else
        var o, rec, x := s.operations[b.operationID], s.resources[b.resourceID], s.executions[b.operationID];
        if !ContextFits(rec, o, x.intent) then Err(InvalidCall)
        else if NeedsEvidence(o, x) && !EvidenceAccepted(x, rec.resource, rec.status, o) then Err(EvidenceRejected)
        else Ok(Some(b.operationID))
  }

  // ----------------------------------------------------------------- references

  predicate SlotTargetTypeAllowed(contract: Option<ReferenceContract>, slot: string, t: TypeRef) {
    contract.Some? && FindSlot(contract.value.slots, slot).Some? && t in FindSlot(contract.value.slots, slot).value.allowed
  }

  predicate EligibleState(s: ResourceState) {
    s.RsUnknown? || s.RsPending? || s.RsReady? || s.RsFailed?
  }

  predicate TargetEligible(s: Records, owner: OwnerRef, contract: Option<ReferenceContract>, e: Edge, readable: set<ResourceID>) {
    && e.target in s.resources
    && s.resources[e.target].resource.owner == owner
    && SlotTargetTypeAllowed(contract, e.slot, s.resources[e.target].resource.typeRef)
    && EligibleState(s.resources[e.target].status.state)
    && e.target in readable
  }

  predicate TargetsEligible(s: Records, owner: OwnerRef, contract: Option<ReferenceContract>, added: seq<Edge>, readable: set<ResourceID>) {
    forall i :: 0 <= i < |added| ==> TargetEligible(s, owner, contract, added[i], readable)
  }

  /** Looks every distinct target up, in order. */
  method LockTargets(s: Records, edges: seq<Edge>) returns (found: bool)
    ensures found <==> forall i :: 0 <= i < |edges| ==> edges[i].target in s.resources
  {
    hide DistinctTargets;
    var targets := DistinctEdgeTargets(edges);
    for i := 0 to |targets|
      invariant forall j :: 0 <= j < i ==> targets[j] in s.resources
    {
      if targets[i] !in s.resources {
        assert targets[i] in targets;
        return false;
      }
    }
    forall i | 0 <= i < |edges|
      ensures edges[i].target in s.resources
    {
      assert edges[i] in edges;
      assert edges[i].target in targets;
    }
    return true;
  }

  /** One generic refusal for every kind of unavailable target. */
  method ValidateReferenceTargets(s: Records, owner: OwnerRef, contract: Option<ReferenceContract>, added: seq<Edge>, readable: set<ResourceID>)
    returns (ok: bool)
    ensures ok <==> TargetsEligible(s, owner, contract, added, readable)
  {
    hide SlotTargetTypeAllowed;
    var found := LockTargets(s, added);
    if !found {
      return false;
    }
    for i := 0 to |added|
      invariant forall j :: 0 <= j < i ==> TargetEligible(s, owner, contract, added[j], readable)
    {
      var rec := s.resources[added[i].target];
      if rec.resource.owner != owner {
        return false;
      }
      if !SlotTargetTypeAllowed(contract, added[i].slot, rec.resource.typeRef) {
        return false;
      }
      if !EligibleState(rec.status.state) {
        return false;
      }
      if added[i].target !in readable {
        return false;
      }
    }
    return true;
  }

  /** What adding edges to a source amounts to: unavailable targets, then the cycle search. */
  function AddedEdgesError(s: Records, id: ResourceID, owner: OwnerRef, contract: Option<ReferenceContract>, added: seq<Edge>,
                           readable: set<ResourceID>): Option<AdmitError>
  {
    if added == [] then None
    else if !TargetsEligible(s, owner, contract, added, readable) then Some(InvalidReferences)
    else match CycleVerdict(DesiredGraph(s.desired), id, DistinctTargets(added))
      case ProvedSafe => None
      case CycleFound => Some(DependencyCycle)
      case LimitReached => Some(GraphLimit)
  }

  // ------------------------------------------------------------------ executions

  /** The execution an admitted operation starts with. */
  function NewExecution(rec: Record, o: Operation): Execution {
    Execution(Intent(o.id, rec.provisionerRef, rec.resource.id, rec.resource.typeRef, o.capability, o.targetGeneration,
                     rec.resource.spec, None),
              OutputProgress("", ResolutionUnset, None), None, AttemptPending, None, false, None, ZERO_TIME, ZERO_TIME, None,
              CorrUnknown, 0, 1, 1)
  }

  function BindingOf(q: Caller, kind: string, o: Operation): Binding {
    Binding(q.fingerprint, kind, o.resourceID, o.id)
  }

  function CreateKind(): string { "create" }
  function UpdateKind(): string { "update" }
  function DeleteKind(): string { "delete" }
  function RetryKind(): string { "retry" }

  /** A retry must name a failed operation of the same resource, capability and target. */
  predicate RetrySourceFits(s: Records, o: Operation) {
    o.retryOf != "" ==>
      && o.retryOf in s.operations
      && var f := s.operations[o.retryOf];
      f.state.OpFailed? && f.resourceID == o.resourceID && f.capability == o.capability && f.targetGeneration == o.targetGeneration
  }

  /** Writes one admitted transition; the operation identity must be new. */
  function Persist(s: Records, rec: Record, t: Transition, x: Execution, desired: EdgeTable, q: Caller, kind: string, updated: bool):
    AdmitResult
  {
    var o := t.operation;
    if o.id in s.operations || o.id in s.executions || !RetrySourceFits(s, o) then Err(Conflict)
    else Ok(Admitted(AddOperation(s, rec.(status := t.status), o, x, desired, KeyOf(q), BindingOf(q, kind, o), updated), o.id, false))
  }

  // --------------------------------------------------------------------- creates

  datatype CreateRequest = CreateRequest(
    caller: Caller, id: ResourceID, typeRef: TypeRef, owner: OwnerRef, spec: Spec, references: Submitted,
    operationID: OperationID, eventID: EventID, at: Time, specValid: bool, policyAllows: bool, provisioner: Option<string>)

  ghost function AdmitNew(s: Records, c: Catalog, q: CreateRequest, edges: seq<Edge>): AdmitResult
    requires q.typeRef in c
  {
    var r := NewResource(q.id, q.typeRef, q.owner, q.spec, q.at);
    var begun := NewResourceStatus(q.id, 0, RsUnknown, [], q.at);
    if r.Err? || begun.Err? then Err(MalformedRequest)
    else
      var t := Request(r.value, q.typeRef, c[q.typeRef].supported, begun.value, None, Create, q.operationID, q.eventID, q.at);
      if t.Err? then Err(EngineRefused(t.error))
      else if ActiveFor(s, q.id).Some? then Err(EngineRefused(OperationActive))
      else if q.id in s.resources then Err(Conflict)
      else
        var refused := AddedEdgesError(s, q.id, q.owner, c[q.typeRef].references, edges, q.caller.readable);
        if refused.Some? then Err(refused.value)
        else if !q.policyAllows then Err(PolicyDenied)
        else if q.provisioner.None? || Blank(q.provisioner.value) then Err(NoProvisioner)
        else
          var rec := Record(r.value, t.value.status, q.provisioner.value);
          Persist(s, rec, t.value, NewExecution(rec, t.value.operation), PutEdges(s.desired, q.id, 1, edges), q.caller, CreateKind(), false)
  }

  ghost function AdmitCreate(s: Records, c: Catalog, q: CreateRequest): AdmitResult {
    if !q.caller.authorized then Err(Unauthorized)
    else if CanonicalOf(q.references).None? then Err(InvalidReferences)
    else
      var edges := CanonicalOf(q.references).value;
      var replay := Replay(s, KeyOf(q.caller), q.caller.fingerprint, CreateKind());
      if replay.Err? then Err(replay.error)
      else if replay.value.Some? then Ok(Admitted(s, replay.value.value, true))
      else if q.typeRef !in c then Err(UnknownType)
      else if !q.specValid then Err(InvalidSpec)
      else if !ShapeAccepts(c[q.typeRef].references, q.id, edges) then Err(InvalidReferences)
      else AdmitNew(s, c, q, edges)
  }

  // ---------------------------------------------------------- updates and deletes

  /** An update may leave its references out, which keeps the stored ones. */
  datatype Change = UpdateTo(spec: Spec, references: Option<Submitted>) | DeleteIt

  datatype ExistingRequest = ExistingRequest(
    caller: Caller, id: ResourceID, expectedGeneration: nat, change: Change, operationID: OperationID, eventID: EventID,
    at: Time, specValid: bool, policyAllows: bool)

  /** A protective row of a source that is deleted or missing. */
  predicate InboundCorrupt(s: Records, target: ResourceID) {
    || (exists id :: id in s.desired && Targets(s.desired[id], target) && (id !in s.resources || s.resources[id].status.state.RsDeleted?))
    || (exists id :: id in s.applied && Targets(s.applied[id], target) && (id !in s.resources || s.resources[id].status.state.RsDeleted?))
  }

  ghost function AdmitDelete(s: Records, c: Catalog, q: ExistingRequest): AdmitResult
    requires q.id in s.resources && s.resources[q.id].resource.typeRef in c
  {
    var rec := s.resources[q.id];
    if InboundCorrupt(s, q.id) then Err(InvariantBroken)
    else if HasInbound(s, q.id) then Err(InUse)
    else
      var t := Request(rec.resource, rec.resource.typeRef, c[rec.resource.typeRef].supported, rec.status, ActiveFor(s, q.id), Delete,
                       q.operationID, q.eventID, q.at);
      if t.Err? then Err(EngineRefused(t.error))
      else Persist(s, rec, t.value, NewExecution(rec, t.value.operation), s.desired, q.caller, DeleteKind(), false)
  }

  /** The desired set an update leaves behind. */
  ghost function EffectiveDesired(s: Records, c: Catalog, q: ExistingRequest): seq<Edge>
    requires q.id in s.resources && s.resources[q.id].resource.typeRef in c && q.change.UpdateTo?
    requires q.change.references.Some? ==> CanonicalOf(q.change.references.value).Some?
  {
    if q.change.references.Some? then CanonicalOf(q.change.references.value).value
    else if c[s.resources[q.id].resource.typeRef].references.Some? then EdgesAt(s.desired, q.id)
    else []
  }

  ghost function UpdateReferencesError(s: Records, c: Catalog, q: ExistingRequest): Option<AdmitError>
    requires q.id in s.resources && s.resources[q.id].resource.typeRef in c && q.change.UpdateTo?
    requires q.change.references.Some? ==> CanonicalOf(q.change.references.value).Some?
  {
    var rec := s.resources[q.id];
    var contract := c[rec.resource.typeRef].references;
    var edges := EffectiveDesired(s, c, q);
    if q.change.references.None? then None
    else if !ShapeAccepts(contract, q.id, edges) then Some(InvalidReferences)
    else AddedEdgesError(s, q.id, rec.resource.owner, contract, WithoutKeys(edges, EdgesAt(s.desired, q.id)), q.caller.readable)
  }

  /** The update carries a new edge whose key an edge stored before already has: the
      difference passes over it, and nothing checks its target. */
  ghost predicate Disguising(s: Records, q: ExistingRequest) {
    && q.change.UpdateTo? && q.change.references.Some? && CanonicalOf(q.change.references.value).Some?
    && Disguises(CanonicalOf(q.change.references.value).value, EdgesAt(s.desired, q.id))
  }

  ghost function AdmitUpdate(s: Records, c: Catalog, q: ExistingRequest): AdmitResult
    requires q.id in s.resources && s.resources[q.id].resource.typeRef in c && q.change.UpdateTo?
    requires q.change.references.Some? ==> CanonicalOf(q.change.references.value).Some?
  {
    var rec := s.resources[q.id];
    var refused := UpdateReferencesError(s, c, q);
    if refused.Some? then Err(refused.value)
    else if !q.specValid then Err(InvalidSpec)
    else
      var u := UpdateSpec(rec.resource, q.change.spec, q.at);
      if u.Err? then Err(MalformedRequest)
      else
        var t := Request(u.value, u.value.typeRef, c[rec.resource.typeRef].supported, rec.status, ActiveFor(s, q.id), Update,
                         q.operationID, q.eventID, q.at);
        if t.Err? then Err(EngineRefused(t.error))
        else if !q.policyAllows then Err(PolicyDenied)
        else
          var edges := EffectiveDesired(s, c, q);
          var desired := if q.change.references.Some? || edges != [] then PutEdges(s.desired, q.id, u.value.generation, edges) else s.desired;
          var now := rec.(resource := u.value);
          Persist(s, now, t.value, NewExecution(now, t.value.operation), desired, q.caller, UpdateKind(), true)
  }

  ghost function AdmitExisting(s: Records, c: Catalog, q: ExistingRequest): AdmitResult {
    if q.expectedGeneration == 0 then Err(InvalidCall)
    else if q.id !in s.resources then Err(NotFound)
    else if !q.caller.authorized then Err(Unauthorized)
    else if q.change.UpdateTo? && q.change.references.Some? && CanonicalOf(q.change.references.value).None? then Err(InvalidReferences)
    else
      var replay := Replay(s, KeyOf(q.caller), q.caller.fingerprint, if q.change.DeleteIt? then DeleteKind() else UpdateKind());
      if replay.Err? then Err(replay.error)
      else if replay.value.Some? then Ok(Admitted(s, replay.value.value, true))
      else if s.resources[q.id].resource.generation != q.expectedGeneration then Err(Conflict)
      else if s.resources[q.id].resource.typeRef !in c then Err(UnknownType)
      else if q.change.DeleteIt? then AdmitDelete(s, c, q)
      else AdmitUpdate(s, c, q)
  }

  // --------------------------------------------------------------------- retries

  /** The submission attempt and the mapping a recovery would use are inputs. */
  datatype RetryRequest = RetryRequest(
    caller: Caller, source: OperationID, expectedGeneration: nat, operationID: OperationID, eventID: EventID, at: Time,
    attempt: Option<Attempt>, mapping: Option<string>)

  function OutputPostconditionRejected(): string { "OutputPostconditionRejected" }

  predicate IsOutputRecoveryFailure(o: Operation) {
    o.failure.Some? && o.failure.value.reason == OutputPostconditionRejected()
  }

  predicate RetryStateCompatible(capability: Capability, state: ResourceState) {
    match capability
    case Create => state.RsFailed?
    case Update => state.RsReady?
    case Delete => state.RsReady? || state.RsFailed?
    case OtherCapability(_) => false
  }

  predicate ProvenanceFits(rec: Record, o: Operation, x: Execution) {
    && x.intent.operationID == o.id && x.intent.resourceID == rec.resource.id && x.intent.typeRef == rec.resource.typeRef
    && x.intent.capability == o.capability && x.intent.targetGeneration == o.targetGeneration
    && x.intent.provisionerRef == rec.provisionerRef && x.intent.spec == rec.resource.spec
  }

  predicate RecoveryAdmissible(o: Operation, x: Execution, attempt: Option<Attempt>) {
    && x.state.AttemptSucceeded? && x.outputs.resolution.ResolutionRejected? && x.outputs.failure == o.failure
    && (o.capability.Create? || o.capability.Update?)
    && x.currentAttempt != 0 && x.intent.provisionerRef != "" && !Blank(x.outputs.mappingRef)
    && attempt.Some? && attempt.value.operationID == x.intent.operationID && attempt.value.number == x.currentAttempt
    && (attempt.value.state.SubAccepted? ||
        (attempt.value.state.SubUnknown? && x.acceptanceConfirmed && x.correlation.CorrFound?
         && TerminalObservation(x).Some? && TerminalObservation(x).value.execution.value.state.BackendSucceeded?))
  }

  /** The execution of a retry: the source's intent, or the recovery of its outputs alone. */
  function RetryExecution(rec: Record, failed: Operation, x: Execution, o: Operation, mapping: Option<string>): Execution {
    var child := NewExecution(rec, o);
    if IsOutputRecoveryFailure(failed) && mapping.Some? then
      child.(intent := child.intent.(recoverySource := Some((x.intent.operationID, x.currentAttempt))),
             outputs := OutputProgress(mapping.value, ResolutionPending, None),
             state := AttemptSucceeded)
    else child
  }

  predicate MappingSelected(x: Execution, mapping: Option<string>) {
    mapping.Some? && !Blank(mapping.value) && mapping.value != x.outputs.mappingRef
  }

  function RetryRefusal(s: Records, c: Catalog, q: RetryRequest, rec: Record, failed: Operation): Option<AdmitError> {
    if rec.resource.typeRef !in c then Some(UnknownType)
    else if failed.capability !in c[rec.resource.typeRef].supported then Some(NotRetryable)
    else if failed.id !in s.executions || !ProvenanceFits(rec, failed, s.executions[failed.id]) then Some(NotRetryable)
    else if !IsOutputRecoveryFailure(failed) then None
    else
      var x := s.executions[failed.id];
      if !EvidenceAccepted(x, rec.resource, rec.status, failed) || !RecoveryAdmissible(failed, x, q.attempt) then Some(NotRetryable)
      else if !MappingSelected(x, q.mapping) then Some(NoProvisioner)
      else None
  }

  ghost function AdmitRetryOf(s: Records, c: Catalog, q: RetryRequest, rec: Record, failed: Operation): AdmitResult {
    if rec.resource.generation != q.expectedGeneration then Err(Conflict)
    else if !failed.state.OpFailed? then Err(NotRetryable)
    else if ActiveFor(s, rec.resource.id).Some? then Err(EngineRefused(OperationActive))
    else if LatestFor(s, rec.resource.id) != Some(failed) then Err(NotRetryable)
    else if failed.targetGeneration != rec.resource.generation then Err(NotRetryable)
    else if !RetryStateCompatible(failed.capability, rec.status.state) then Err(NotRetryable)
    else
      var refused := RetryRefusal(s, c, q, rec, failed);
      if refused.Some? then Err(refused.value)
      else
        var t := Request(rec.resource, rec.resource.typeRef, c[rec.resource.typeRef].supported, rec.status, Some(failed),
                         failed.capability, q.operationID, q.eventID, q.at);
        if t.Err? then Err(EngineRefused(t.error))
        else Persist(s, rec, t.value, RetryExecution(rec, failed, s.executions[failed.id], t.value.operation, q.mapping), s.desired,
                     q.caller, RetryKind(), false)
  }

  ghost function AdmitRetry(s: Records, c: Catalog, q: RetryRequest): AdmitResult {
    if q.source !in s.operations || s.operations[q.source].resourceID !in s.resources then Err(NotFound)
    else if !q.caller.authorized then Err(Unauthorized)
    else if q.expectedGeneration == 0 then Err(InvalidCall)
    else
      var replay := Replay(s, KeyOf(q.caller), q.caller.fingerprint, RetryKind());
      if replay.Err? then Err(replay.error)
      else if replay.value.Some? then Ok(Admitted(s, replay.value.value, true))
      else AdmitRetryOf(s, c, q, s.resources[s.operations[q.source].resourceID], s.operations[q.source])
  }
}
