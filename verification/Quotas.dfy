/** Quotas over the machine: creates judged by the policy on counts taken from the very
    records they are admitted to. */
module Quotas {
  import opened Admission
  import opened AdmissionFacts
  import opened Basics
  import opened Cells
  import opened ControlPlane
  import opened Convergence
  import opened ConvergenceFacts
  import opened Dependencies
  import opened Domain
  import opened FinishFacts
  import opened Finishing
  import opened Lifecycle
  import opened Provisioning
  import opened References
  import opened Store
  import P = Policy

  predicate IsLive(s: Records, id: ResourceID) {
    id in s.resources && !s.resources[id].status.state.RsDeleted?
  }

  /** What the count query sees: every resource that is not deleted. */
  function LiveOf(s: Records): P.Live {
    map id | id in s.resources && IsLive(s, id) :: P.Holding(s.resources[id].resource.owner, s.resources[id].resource.typeRef)
  }

  /** Planned, counted and decided in the admission's own transaction. */
  predicate Allows(p: P.Overlay, mutation: P.Mutation, owner: OwnerRef, t: TypeRef, f: P.Facts) {
    var intent := P.Intent(mutation, owner, t);
    P.IntentComplete(intent) && P.DecisionOf(p, P.PlanOf(p, intent), f) == Ok(None)
  }

  /** The step with the verdict its policy gives in these records. */
  function Judged(p: P.Overlay, s: Records, step: Step): Step {
    match step
    case DoCreate(q) =>
      DoCreate(q.(policyAllows := Allows(p, P.MutateCreate, q.owner, q.typeRef, P.ExactFacts(LiveOf(s), q.owner, q.typeRef))))
    case DoExisting(q) =>
      if q.id !in s.resources then step
      else
        var r := s.resources[q.id].resource;
        DoExisting(q.(policyAllows := Allows(p, P.MutateUpdate, r.owner, r.typeRef, P.Facts(false, r.owner, r.typeRef, 0, 0))))
    case _ => step
  }

  ghost function Govern(p: P.Overlay, s: Records, c: Catalog, steps: seq<Step>): Records
    decreases |steps|
  {
    hide Next, Judged;
    if steps == [] then s else Govern(p, Next(s, c, Judged(p, s, steps[0])), c, steps[1..])
  }

  // -------------------------------------------------------- what a step does to counts

  /** Nothing entered the counts; what left them was deleted. */
  predicate OnlyLeaves(s: Records, n: Records, id: ResourceID) {
    LiveOf(n) == LiveOf(s) || LiveOf(n) == LiveOf(s) - {id}
  }

  lemma StaysOutOfCounts(s: Records, n: Records, id: ResourceID)
    requires n.resources.Keys == s.resources.Keys
    requires forall other :: other != id && other in s.resources ==> n.resources[other] == s.resources[other]
    requires id in s.resources ==> n.resources[id].resource.owner == s.resources[id].resource.owner
                                   && n.resources[id].resource.typeRef == s.resources[id].resource.typeRef
    requires IsLive(n, id) ==> IsLive(s, id)
    ensures OnlyLeaves(s, n, id)
  {
    if IsLive(s, id) && !IsLive(n, id) {
      assert LiveOf(n) == LiveOf(s) - {id};
    } else {
      assert LiveOf(n) == LiveOf(s);
    }
  }

  lemma WorkOnlyLeaves(s: Records, n: Records, id: ResourceID)
    requires SameAdmissions(s, n) && OthersStand(s, n, id) && (IsLive(n, id) ==> IsLive(s, id))
    ensures OnlyLeaves(s, n, id)
  {
    hide IsLive;
    StaysOutOfCounts(s, n, id);
  }

  lemma AdmittedOnlyLeaves(s: Records, rec: Record, t: Transition, x: Execution, desired: EdgeTable, q: Caller, kind: string, updated: bool)
    requires Persist(s, rec, t, x, desired, q, kind, updated).Ok?
    requires rec.resource.id in s.resources && IsLive(s, rec.resource.id)
    requires s.resources[rec.resource.id].resource.owner == rec.resource.owner
    requires s.resources[rec.resource.id].resource.typeRef == rec.resource.typeRef
    ensures OnlyLeaves(s, Persist(s, rec, t, x, desired, q, kind, updated).value.records, rec.resource.id)
  {
    var n := Persist(s, rec, t, x, desired, q, kind, updated).value.records;
    assert n.resources == s.resources[rec.resource.id := rec.(status := t.status)];
    StaysOutOfCounts(s, n, rec.resource.id);
  }

  /** A deleted resource takes no update and no delete. */
  lemma ExistingIsLive(s: Records, c: Catalog, q: ExistingRequest)
    requires AdmitExisting(s, c, q).Ok? && !AdmitExisting(s, c, q).value.replay
    ensures IsLive(s, q.id)
  {
    hide Replay, CanonicalOf, Persist, UpdateReferencesError, EffectiveDesired, ActiveFor, HasInbound, InboundCorrupt, RequestConditions,
         StatusOf, EventOf, ResourceContextValid, OperationSnapshotValid;
  }

  lemma RetryIsLive(s: Records, c: Catalog, q: RetryRequest)
    requires AdmitRetry(s, c, q).Ok? && !AdmitRetry(s, c, q).value.replay
    ensures q.source in s.operations && IsLive(s, s.operations[q.source].resourceID)
  {
    hide Replay, Persist, ActiveFor, Request, RetryRefusal, RetryExecution, LatestFor;
  }

  lemma ExistingLeaves(s: Records, c: Catalog, q: ExistingRequest, n: Records)
    requires Invariant(s, c) && AdmitExisting(s, c, q).Ok? && AdmitExisting(s, c, q).value.records == n
    ensures OnlyLeaves(s, n, q.id)
  {
    hide Invariant, AdmitDelete, AdmitUpdate, Replay, CanonicalOf, Addable, UpdateReferencesError, EffectiveDesired, Persist, IsLive, OnlyLeaves;
    if Replay(s, KeyOf(q.caller), q.caller.fingerprint, if q.change.DeleteIt? then DeleteKind() else UpdateKind()).value.Some? {
      NothingLeaves(s, q.id);
    } else if q.change.DeleteIt? {
      var t := DeleteTransition(s, c, q);
      var rec := s.resources[q.id];
      PersistCounts(s, rec, t, NewExecution(rec, t.operation), DesiredAfter(s, rec, None), q.caller, DeleteKind(), false, q.id);
      ExistingIsLive(s, c, q);
      AdmittedOnlyLeaves(s, rec, t, NewExecution(rec, t.operation), DesiredAfter(s, rec, None), q.caller, DeleteKind(), false);
    } else {
      var rec, t := UpdateTransition(s, c, q);
      var rows := UpdatedRows(q, EffectiveDesired(s, c, q));
      PersistCounts(s, rec, t, NewExecution(rec, t.operation), DesiredAfter(s, rec, rows), q.caller, UpdateKind(), true, q.id);
      ExistingIsLive(s, c, q);
      AdmittedOnlyLeaves(s, rec, t, NewExecution(rec, t.operation), DesiredAfter(s, rec, rows), q.caller, UpdateKind(), true);
    }
  }

  lemma NothingLeaves(s: Records, id: ResourceID)
    ensures OnlyLeaves(s, s, id)
  {
  }

  lemma RetryLeaves(s: Records, c: Catalog, q: RetryRequest, n: Records)
    requires Invariant(s, c) && AdmitRetry(s, c, q).Ok? && AdmitRetry(s, c, q).value.records == n
    ensures q.source in s.operations && OnlyLeaves(s, n, s.operations[q.source].resourceID)
  {
    hide Invariant, AdmitRetryOf, Replay, Addable, RetryExecution, Persist, IsLive, OnlyLeaves;
    var failed := s.operations[q.source];
    if Replay(s, KeyOf(q.caller), q.caller.fingerprint, RetryKind()).value.Some? {
      NothingLeaves(s, failed.resourceID);
    } else {
      var t := RetryTransition(s, c, q);
      var rec := s.resources[failed.resourceID];
      var x := RetryExecution(rec, failed, s.executions[failed.id], t.operation, q.mapping);
      PersistCounts(s, rec, t, x, DesiredAfter(s, rec, None), q.caller, RetryKind(), false, failed.resourceID);
      RetryIsLive(s, c, q);
      AdmittedOnlyLeaves(s, rec, t, x, DesiredAfter(s, rec, None), q.caller, RetryKind(), false);
    }
  }

  lemma ActiveIsLive(s: Records, c: Catalog, oid: OperationID)
    requires Invariant(s, c) && oid in s.operations && !s.operations[oid].IsTerminal()
    ensures IsLive(s, s.operations[oid].resourceID)
  {
    hide Invariant, Books;
    InvariantParts(s, c);
    WorkInHand(s, c, oid);
  }

  lemma DriveLeaves(s: Records, c: Catalog, oid: OperationID, n: Records)
    requires Invariant(s, c) && DriveOperation(s, c, oid) == Ok(n)
    ensures oid in s.operations && OnlyLeaves(s, n, s.operations[oid].resourceID)
  {
    hide Invariant, SameAdmissions, OnlyLeaves, AdvanceThrough, SettleGateBlock, EvaluateDependencies;
    DriveKeepsInvariant(s, c, oid, n);
    DriveAdmitsNothing(s, c, oid, n);
    ActiveIsLive(s, c, oid);
    WorkOnlyLeaves(s, n, s.operations[oid].resourceID);
  }

  lemma RecordLeaves(s: Records, c: Catalog, x: Execution, n: Records, id: ResourceID)
    requires Invariant(s, c) && RecordEvidence(s, x) == Ok(n)
    ensures OnlyLeaves(s, n, id)
  {
    hide Invariant;
  }

  lemma FinishLeaves(s: Records, c: Catalog, x: Execution, finish: Finish, evidence: Option<OutputEvidence>, detail: string, at: Time, n: Records)
    requires Invariant(s, c) && FinishOperation(s, c, x, finish, evidence, detail, at) == Ok(n)
    ensures x.intent.operationID in s.operations && OnlyLeaves(s, n, s.operations[x.intent.operationID].resourceID)
  {
    hide Invariant, SameAdmissions, OnlyLeaves, FinishOperation, InHand, PutEdges;
    FinishKeepsInvariant(s, c, x, finish, evidence, detail, at, n);
    FinishAdmitsNothing(s, c, x, finish, evidence, detail, at, n);
    var o := s.operations[x.intent.operationID];
    assert !o.IsTerminal() by { FinishIsUnderWay(s, c, x, finish, evidence, detail, at); }
    ActiveIsLive(s, c, x.intent.operationID);
    WorkOnlyLeaves(s, n, o.resourceID);
  }

  lemma FinishIsUnderWay(s: Records, c: Catalog, x: Execution, finish: Finish, evidence: Option<OutputEvidence>, detail: string, at: Time)
    requires FinishOperation(s, c, x, finish, evidence, detail, at).Ok?
    ensures x.intent.operationID in s.operations && !s.operations[x.intent.operationID].IsTerminal()
  {
    hide FinishFailed, FinishRejected, FinishSucceeded;
  }

  lemma ObserveLeaves(s: Records, c: Catalog, id: ResourceID, f: ObservedFacts, at: Time, n: Records)
    requires Invariant(s, c) && PassiveObserve(s, id, f, at) == Ok(n)
    ensures OnlyLeaves(s, n, id)
  {
    hide Invariant, SameAdmissions, OnlyLeaves;
    PassiveKeepsInvariant(s, c, id, f, at, n);
    ObserveAdmitsNothing(s, id, f, at, n);
    DeletedStaysDeleted(s, id, f, at, n);
    WorkOnlyLeaves(s, n, id);
  }

  lemma DeletedStaysDeleted(s: Records, id: ResourceID, f: ObservedFacts, at: Time, n: Records)
    requires PassiveObserve(s, id, f, at) == Ok(n)
    ensures IsLive(n, id) ==> IsLive(s, id)
  {
    hide ObservedConditions, ActiveFor, DriftAfter, StatusWellFormed;
  }

  lemma NewNeedsPolicy(s: Records, c: Catalog, q: CreateRequest, edges: seq<Edge>)
    requires q.typeRef in c && AdmitNew(s, c, q, edges).Ok?
    ensures q.policyAllows
  {
    hide Request, Persist, AddedEdgesError, ActiveFor, StatusWellFormed;
  }

  lemma PersistedNew(s: Records, rec: Record, t: Transition, x: Execution, desired: EdgeTable, q: Caller, kind: string, updated: bool)
    requires Persist(s, rec, t, x, desired, q, kind, updated).Ok?
    requires rec.resource.id !in s.resources && !t.status.state.RsDeleted?
    ensures LiveOf(Persist(s, rec, t, x, desired, q, kind, updated).value.records) ==
              LiveOf(s)[rec.resource.id := P.Holding(rec.resource.owner, rec.resource.typeRef)]
  {
    var n := Persist(s, rec, t, x, desired, q, kind, updated).value.records;
    assert n.resources == s.resources[rec.resource.id := rec.(status := t.status)];
  }

  /** An admitted create enters the counts, and only one the policy allows on them. */
  lemma CreateEnters(p: P.Overlay, s: Records, c: Catalog, q: CreateRequest, n: Records)
    requires Invariant(s, c) && AdmitCreate(s, c, q).Ok? && AdmitCreate(s, c, q).value.records == n
    requires q.policyAllows == Allows(p, P.MutateCreate, q.owner, q.typeRef, P.ExactFacts(LiveOf(s), q.owner, q.typeRef))
    ensures LiveOf(n) == LiveOf(s) || LiveOf(n) == P.Apply(p, LiveOf(s), P.CreateUnder(q.id, q.owner, q.typeRef))
  {
    hide Invariant, AdmitNew, ShapeAccepts, Replay, CanonicalOf, Addable, RowsAdmitted, Persist, P.PlanOf, P.DecisionOf, P.ExactFacts;
    if Replay(s, KeyOf(q.caller), q.caller.fingerprint, CreateKind()).value.None? {
      var edges := CanonicalOf(q.references).value;
      var rec, t := AdmitNewAddable(s, c, q, edges);
      NewNeedsPolicy(s, c, q, edges);
      PersistCounts(s, rec, t, NewExecution(rec, t.operation), DesiredAfter(s, rec, Some(edges)), q.caller, CreateKind(), false, q.id);
      PersistedNew(s, rec, t, NewExecution(rec, t.operation), DesiredAfter(s, rec, Some(edges)), q.caller, CreateKind(), false);
    }
  }

  // ------------------------------------------------------------------- all runs

  /** What a governed step does to the counts is one of the policy's own changes, or nothing. */
  lemma StepIsGoverned(p: P.Overlay, s: Records, c: Catalog, step: Step) returns (change: P.Change)
    requires Steady(s, c)
    ensures var n := Next(s, c, Judged(p, s, step));
            LiveOf(n) == LiveOf(s) || LiveOf(n) == P.Apply(p, LiveOf(s), change)
  {
    hide Steady, Invariant, CleanRows, AdmitCreate, AdmitExisting, AdmitRetry, DriveOperation, RecordEvidence, FinishOperation, PassiveObserve,
         TransportSafe, Allows, LiveOf, P.CreateAdmitted;
    SteadyParts(s, c);
    var judged := Judged(p, s, step);
    change := P.FinishDelete("");
    if Taken(s, c, judged).Some? {
      var n := Taken(s, c, judged).value;
      match judged
      case DoCreate(q) =>
        CreateEnters(p, s, c, q, n);
        change := P.CreateUnder(q.id, q.owner, q.typeRef);
      case DoExisting(q) =>
        ExistingLeaves(s, c, q, n);
        change := P.FinishDelete(q.id);
      case DoRetry(q) =>
        RetryLeaves(s, c, q, n);
        change := P.FinishDelete(s.operations[q.source].resourceID);
      case DoDrive(oid) =>
        DriveLeaves(s, c, oid, n);
        change := P.FinishDelete(s.operations[oid].resourceID);
      case DoRecord(x) =>
        RecordLeaves(s, c, x, n, "");
      case DoFinish(x, finish, evidence, detail, at) =>
        FinishLeaves(s, c, x, finish, evidence, detail, at, n);
        change := P.FinishDelete(s.operations[x.intent.operationID].resourceID);
      case DoObserve(id, f, at) =>
        ObserveLeaves(s, c, id, f, at, n);
        change := P.FinishDelete(id);
    }
  }

  /** Over every run whose creates are judged on the counts of the records they join, no
      count that starts within a quota ever exceeds it, and one above never grows. */
  lemma {:induction false} QuotasHoldInEveryRun(p: P.Overlay, s: Records, c: Catalog, steps: seq<Step>, k: nat, owner: OwnerRef)
    requires P.OverlayWellFormed(p) && Steady(s, c) && k < |p.rules| && P.Concerns(p.rules[k], owner)
    ensures P.Usage(LiveOf(Govern(p, s, c, steps)), p.rules[k], owner) <=
              P.Max(P.Usage(LiveOf(s), p.rules[k], owner), p.rules[k].limit)
    decreases |steps|
  {
    hide Steady, Next, Judged, LiveOf, P.Usage, P.Apply, P.Concerns, P.OverlayWellFormed;
    if steps != [] {
      var change := StepIsGoverned(p, s, c, steps[0]);
      P.ApplyKeepsQuota(p, LiveOf(s), change, k, owner);
      StepKeepsSteady(s, c, Judged(p, s, steps[0]));
      QuotasHoldInEveryRun(p, Next(s, c, Judged(p, s, steps[0])), c, steps[1..], k, owner);
    }
  }

  /** From the empty records no owner ever has more than its quotas allow. */
  lemma QuotasAreNeverExceeded(p: P.Overlay, c: Catalog, steps: seq<Step>, k: nat, owner: OwnerRef)
    requires P.OverlayWellFormed(p) && k < |p.rules| && P.Concerns(p.rules[k], owner)
    ensures P.Usage(LiveOf(Govern(p, EMPTY, c, steps)), p.rules[k], owner) <= p.rules[k].limit
  {
    hide Steady, Govern;
    EmptyIsSteady(c);
    QuotasHoldInEveryRun(p, EMPTY, c, steps, k, owner);
    assert LiveOf(EMPTY) == map[];
    assert P.OwnedBy(map[], owner) == {};
    assert p.rules[k].typeRef.Some? ==> P.OwnedOfType(map[], owner, p.rules[k].typeRef.value) == {};
  }
}
