/** Idempotency keys: what a bound key answers, and that it names one operation for good. */
module Keys {
  import opened Admission
  import opened AdmissionFacts
  import opened Basics
  import opened ControlPlane
  import opened Convergence
  import opened ConvergenceFacts
  import opened Dependencies
  import opened Domain
  import opened Drive
  import opened Finishing
  import opened Lifecycle
  import opened Provisioning
  import opened References
  import opened Store

  /** In every reachable state a bound key finds its resource, operation and execution,
      and they belong together. */
  lemma BindingIsWhole(s: Records, c: Catalog, k: BindingKey)
    requires Invariant(s, c) && k in s.bindings
    ensures var b := s.bindings[k];
            && b.operationID in s.operations && s.operations[b.operationID].id == b.operationID
            && b.resourceID in s.resources && s.resources[b.resourceID].resource.id == b.resourceID
            && s.operations[b.operationID].resourceID == b.resourceID
            && b.operationID in s.executions
            && ContextFits(s.resources[b.resourceID], s.operations[b.operationID], s.executions[b.operationID].intent)
  {
    hide CellOk, Links, ContextFits;
    InvariantParts(s, c);
    var b := s.bindings[k];
    assert b.operationID in s.operations && b.resourceID in s.resources;
    OperationFits(s, c, b.operationID);
    CellOf(s, c, b.resourceID);
  }

  lemma OperationFits(s: Records, c: Catalog, oid: OperationID)
    requires Books(s, c) && oid in s.operations
    ensures OperationOk(s, oid)
  {
  }

  /** What a bound key answers: its own operation to the same fingerprint and kind, a
      conflict to any other. Only a terminal operation whose evidence later readers
      would reject is answered with an error instead. */
  lemma BoundKeyAnswers(s: Records, c: Catalog, k: BindingKey, fingerprint: string, kind: string)
    requires Invariant(s, c) && k in s.bindings
    ensures var b := s.bindings[k];
            && b.operationID in s.operations && b.operationID in s.executions && b.resourceID in s.resources
            && Replay(s, Some(k), fingerprint, kind) ==
                 var o, x, rec := s.operations[b.operationID], s.executions[b.operationID], s.resources[b.resourceID];
                 if b.fingerprint != fingerprint || b.kind != kind then Err(KeyConflict)
                 else if NeedsEvidence(o, x) && !EvidenceAccepted(x, rec.resource, rec.status, o) then Err(EvidenceRejected)
                 else Ok(Some(b.operationID))
  {
    hide Invariant, ContextFits, EvidenceAccepted, NeedsEvidence;
    BindingIsWhole(s, c, k);
  }

  /** No backend ever said anything about the execution. */
  predicate NeverAsked(x: Execution) {
    x.submission.None? && x.lastObservation.None?
  }

  predicate StillNeverAsked(n: Records, oid: OperationID) {
    oid in n.executions && NeverAsked(n.executions[oid])
  }

  lemma AdvancedIdentity(r: Resource, s: ResourceStatus, o: Operation, next: Phase, eventID: EventID, at: Time)
    requires Advance(r, s, o, next, eventID, at).Ok?
    ensures Advance(r, s, o, next, eventID, at).value.operation.id == o.id
  {
    hide SetCondition, StatusOf, EventOf;
  }

  lemma GateAsksNobody(s: Records, id: ResourceID, o: Operation, x: Execution, kind: DependencyClass, at: Time)
    requires id in s.resources && NeverAsked(x) && SettleGateBlock(s, id, o, x, kind, at).Ok?
    requires o.id in s.executions && s.executions[o.id] == x
    ensures StillNeverAsked(SettleGateBlock(s, id, o, x, kind, at).value, o.id)
  {
    hide SetDependencyCondition, GateFailure, BuildFinishEvidence;
    forall status | BuildFinishEvidence(o, s.resources[id].resource, status, GateFailure(kind), at).Ok?
      ensures BuildFinishEvidence(o, s.resources[id].resource, status, GateFailure(kind), at).value.operation.id == o.id
    {
      FinishedIdentity(o, s.resources[id].resource, status, GateFailure(kind), at);
    }
  }

  lemma FinishedIdentity(o: Operation, r: Resource, s: ResourceStatus, finish: Finish, at: Time)
    requires BuildFinishEvidence(o, r, s, finish, at).Ok?
    ensures BuildFinishEvidence(o, r, s, finish, at).value.operation.id == o.id
  {
    EngineTime(o, r, s, finish, at);
    EngineOutcomeState(o, r, s, finish, at);
  }

  lemma ReplayFindsBound(s: Records, k: BindingKey, fingerprint: string, kind: string)
    requires k in s.bindings
    ensures Replay(s, Some(k), fingerprint, kind).Ok? ==>
              && Replay(s, Some(k), fingerprint, kind).value == Some(s.bindings[k].operationID)
              && s.bindings[k].fingerprint == fingerprint && s.bindings[k].kind == kind
  {
    hide EvidenceAccepted, NeedsEvidence, ContextFits;
  }

  /** The caller's key, when the step is a request that carries one. */
  function KeyUsed(step: Step): Option<BindingKey> {
    match step
    case DoCreate(q) => KeyOf(q.caller)
    case DoExisting(q) => KeyOf(q.caller)
    case DoRetry(q) => KeyOf(q.caller)
    case _ => None
  }

  lemma BoundCreate(s: Records, c: Catalog, q: CreateRequest)
    requires KeyOf(q.caller).Some? && KeyOf(q.caller).value in s.bindings
    ensures AdmitCreate(s, c, q).Ok? ==> AdmitCreate(s, c, q).value.records == s
  {
    hide AdmitNew, Replay, ShapeAccepts, CanonicalOf, KeyOf;
    ReplayFindsBound(s, KeyOf(q.caller).value, q.caller.fingerprint, CreateKind());
  }

  lemma BoundExisting(s: Records, c: Catalog, q: ExistingRequest)
    requires KeyOf(q.caller).Some? && KeyOf(q.caller).value in s.bindings
    ensures AdmitExisting(s, c, q).Ok? ==> AdmitExisting(s, c, q).value.records == s
  {
    hide AdmitDelete, AdmitUpdate, Replay, CanonicalOf, KeyOf;
    ReplayFindsBound(s, KeyOf(q.caller).value, q.caller.fingerprint, if q.change.DeleteIt? then DeleteKind() else UpdateKind());
  }

  lemma BoundRetry(s: Records, c: Catalog, q: RetryRequest)
    requires KeyOf(q.caller).Some? && KeyOf(q.caller).value in s.bindings
    ensures AdmitRetry(s, c, q).Ok? ==> AdmitRetry(s, c, q).value.records == s
  {
    hide AdmitRetryOf, Replay, KeyOf;
    ReplayFindsBound(s, KeyOf(q.caller).value, q.caller.fingerprint, RetryKind());
  }

  /** A request under a bound key adds nothing, whatever it asks. */
  lemma BoundKeyAddsNothing(s: Records, c: Catalog, step: Step)
    requires KeyUsed(step).Some? && KeyUsed(step).value in s.bindings
    ensures Next(s, c, step) == s
  {
    hide AdmitCreate, AdmitExisting, AdmitRetry, DriveOperation, RecordEvidence, FinishOperation, PassiveObserve, KeyOf;
    match step
    case DoCreate(q) => BoundCreate(s, c, q);
    case DoExisting(q) => BoundExisting(s, c, q);
    case DoRetry(q) => BoundRetry(s, c, q);
    case _ =>
  }

  lemma UnboundReplay(s: Records, key: Option<BindingKey>, fingerprint: string, kind: string)
    ensures Replay(s, key, fingerprint, kind) == Ok(None) <==> key.None? || key.value !in s.bindings
  {
    hide EvidenceAccepted, NeedsEvidence, ContextFits;
  }

  /** The bindings after an admission: one more under a new key, or the same ones. */
  predicate BindsOnce(s: Records, n: Records, key: Option<BindingKey>) {
    || n.bindings == s.bindings
    || (key.Some? && key.value !in s.bindings && key.value in n.bindings
        && n.bindings == s.bindings[key.value := n.bindings[key.value]]
        && n.bindings[key.value].operationID !in s.operations)
  }

  lemma PersistBindsOnce(s: Records, rec: Record, t: Transition, x: Execution, desired: EdgeTable, q: Caller, kind: string, updated: bool)
    requires Persist(s, rec, t, x, desired, q, kind, updated).Ok?
    requires KeyOf(q).None? || KeyOf(q).value !in s.bindings
    ensures BindsOnce(s, Persist(s, rec, t, x, desired, q, kind, updated).value.records, KeyOf(q))
  {
  }

  lemma StepBindsOnce(s: Records, c: Catalog, step: Step)
    requires Invariant(s, c)
    ensures BindsOnce(s, Next(s, c, step), KeyUsed(step))
  {
    hide Invariant, AdmitCreate, AdmitExisting, AdmitRetry, DriveOperation, RecordEvidence, FinishOperation, PassiveObserve, BindsOnce;
    if KeyUsed(step).Some? && KeyUsed(step).value in s.bindings {
      BoundKeyAddsNothing(s, c, step);
      SameBindings(s, Next(s, c, step), KeyUsed(step));
    } else if Taken(s, c, step).None? {
      SameBindings(s, Next(s, c, step), KeyUsed(step));
    } else {
      match step
      case DoCreate(q) => CreateBindsOnce(s, c, q, AdmitCreate(s, c, q).value);
      case DoExisting(q) => ExistingBindsOnce(s, c, q, AdmitExisting(s, c, q).value);
      case DoRetry(q) => RetryBindsOnce(s, c, q, AdmitRetry(s, c, q).value);
      case _ =>
        WorkAdmitsNothing(s, c, step);
        SameBindings(s, Next(s, c, step), KeyUsed(step));
    }
  }

  lemma SameBindings(s: Records, n: Records, key: Option<BindingKey>)
    requires n.bindings == s.bindings
    ensures BindsOnce(s, n, key)
  {
  }

  lemma CreateBindsOnce(s: Records, c: Catalog, q: CreateRequest, a: Admitted)
    requires Invariant(s, c) && (KeyOf(q.caller).None? || KeyOf(q.caller).value !in s.bindings)
    requires AdmitCreate(s, c, q) == Ok(a)
    ensures BindsOnce(s, a.records, KeyOf(q.caller))
  {
    hide Invariant, AdmitNew, ShapeAccepts, Replay, CanonicalOf, Addable, RowsAdmitted, Persist, KeyOf;
    UnboundReplay(s, KeyOf(q.caller), q.caller.fingerprint, CreateKind());
    var edges := CanonicalOf(q.references).value;
    var rec, t := AdmitNewAddable(s, c, q, edges);
    PersistBindsOnce(s, rec, t, NewExecution(rec, t.operation), DesiredAfter(s, rec, Some(edges)), q.caller, CreateKind(), false);
  }

  lemma ExistingBindsOnce(s: Records, c: Catalog, q: ExistingRequest, a: Admitted)
    requires Invariant(s, c) && (KeyOf(q.caller).None? || KeyOf(q.caller).value !in s.bindings)
    requires AdmitExisting(s, c, q) == Ok(a)
    ensures BindsOnce(s, a.records, KeyOf(q.caller))
  {
    hide Invariant, AdmitDelete, AdmitUpdate, Replay, CanonicalOf, Addable, RowsAdmitted, UpdateReferencesError, EffectiveDesired, Persist,
         KeyOf, BindsOnce;
    UnboundReplay(s, KeyOf(q.caller), q.caller.fingerprint, if q.change.DeleteIt? then DeleteKind() else UpdateKind());
    if q.change.DeleteIt? {
      var t := DeleteTransition(s, c, q);
      var rec := s.resources[q.id];
      PersistBindsOnce(s, rec, t, NewExecution(rec, t.operation), DesiredAfter(s, rec, None), q.caller, DeleteKind(), false);
    } else {
      var rec, t := UpdateTransition(s, c, q);
      PersistBindsOnce(s, rec, t, NewExecution(rec, t.operation), DesiredAfter(s, rec, UpdatedRows(q, EffectiveDesired(s, c, q))),
                       q.caller, UpdateKind(), true);
    }
  }

  lemma RetryBindsOnce(s: Records, c: Catalog, q: RetryRequest, a: Admitted)
    requires Invariant(s, c) && (KeyOf(q.caller).None? || KeyOf(q.caller).value !in s.bindings)
    requires AdmitRetry(s, c, q) == Ok(a)
    ensures BindsOnce(s, a.records, KeyOf(q.caller))
  {
    hide Invariant, AdmitRetryOf, Replay, Addable, RowsAdmitted, RetryExecution, Persist, KeyOf, BindsOnce;
    UnboundReplay(s, KeyOf(q.caller), q.caller.fingerprint, RetryKind());
    var t := RetryTransition(s, c, q);
    var failed := s.operations[q.source];
    var rec := s.resources[failed.resourceID];
    PersistBindsOnce(s, rec, t, RetryExecution(rec, failed, s.executions[failed.id], t.operation, q.mapping), DesiredAfter(s, rec, None),
                     q.caller, RetryKind(), false);
  }

  lemma BoundStays(s: Records, n: Records, key: Option<BindingKey>, k: BindingKey)
    requires BindsOnce(s, n, key) && k in s.bindings
    ensures k in n.bindings && n.bindings[k] == s.bindings[k]
  {
  }

  /** Once bound, a key names the same operation, fingerprint and kind in every later
      state, and its records keep belonging together however far the resource has moved. */
  lemma {:induction false} KeyNamesOneOperation(s: Records, c: Catalog, steps: seq<Step>, k: BindingKey)
    requires Steady(s, c) && k in s.bindings
    ensures var n := Play(s, c, steps);
            && k in n.bindings && n.bindings[k] == s.bindings[k]
            && var b := n.bindings[k];
            && b.operationID in n.operations && b.resourceID in n.resources && b.operationID in n.executions
            && ContextFits(n.resources[b.resourceID], n.operations[b.operationID], n.executions[b.operationID].intent)
    decreases |steps|
  {
    hide Steady, Invariant, CleanRows, Next, BindsOnce, ContextFits;
    if steps == [] {
      SteadyParts(s, c);
      BindingIsWhole(s, c, k);
    } else {
      assert BindsOnce(s, Next(s, c, steps[0]), KeyUsed(steps[0])) by {
        SteadyParts(s, c);
        StepBindsOnce(s, c, steps[0]);
      }
      BoundStays(s, Next(s, c, steps[0]), KeyUsed(steps[0]), k);
      StepKeepsSteady(s, c, steps[0]);
      KeyNamesOneOperation(Next(s, c, steps[0]), c, steps[1..], k);
    }
  }

  /** Every binding of a run names an operation of its own: no two keys share one. */
  ghost predicate KeysApart(s: Records) {
    forall j, k :: j in s.bindings && k in s.bindings && j != k ==> s.bindings[j].operationID != s.bindings[k].operationID
  }

  lemma StepKeepsKeysApart(s: Records, c: Catalog, step: Step)
    requires Invariant(s, c) && KeysApart(s)
    ensures KeysApart(Next(s, c, step))
  {
    hide Next, Books, Links;
    StepBindsOnce(s, c, step);
    InvariantParts(s, c);
    NewKeyIsApart(s, Next(s, c, step), KeyUsed(step));
  }

  lemma NewKeyIsApart(s: Records, n: Records, key: Option<BindingKey>)
    requires Bound(s) && KeysApart(s) && BindsOnce(s, n, key)
    ensures KeysApart(n)
  {
  }

  lemma {:induction false} RunKeepsKeysApart(s: Records, c: Catalog, steps: seq<Step>)
    requires Steady(s, c) && KeysApart(s)
    ensures KeysApart(Play(s, c, steps))
    decreases |steps|
  {
    hide Steady, Next, KeysApart;
    if steps != [] {
      SteadyParts(s, c);
      StepKeepsKeysApart(s, c, steps[0]);
      StepKeepsSteady(s, c, steps[0]);
      RunKeepsKeysApart(Next(s, c, steps[0]), c, steps[1..]);
    }
  }
}
