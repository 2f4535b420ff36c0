/** The control plane as one machine: admissions and worker steps in any order, and what
    holds in every state they reach. */
module ControlPlane {
  import opened Admission
  import opened AdmissionFacts
  import opened Basics
  import opened Convergence
  import opened ConvergenceFacts
  import opened Dependencies
  import opened Domain
  import opened Drive
  import opened FinishFacts
  import opened Finishing
  import opened Graph
  import opened Lifecycle
  import opened Outputs
  import opened Provisioning
  import opened References
  import opened Rows
  import opened Store

  datatype Step =
    | DoCreate(create: CreateRequest)
    | DoExisting(existing: ExistingRequest)
    | DoRetry(retry: RetryRequest)
    | DoDrive(operationID: OperationID)
    | DoRecord(recorded: Execution)
    | DoFinish(finished: Execution, finish: Finish, evidence: Option<OutputEvidence>, detail: string, finishedAt: Time)
    | DoObserve(id: ResourceID, facts: ObservedFacts, observedAt: Time)

  function RecordsOf(r: AdmitResult): Option<Records> {
    if r.Ok? then Some(r.value.records) else None
  }

  function WorkOf(r: WorkResult): Option<Records> {
    if r.Ok? then Some(r.value) else None
  }

  /** What the HTTP boundary lets through: requests whose reference targets are single
      path segments. */
  predicate TransportAccepts(step: Step) {
    match step
    case DoCreate(q) => TransportSafe(q.references)
    case DoExisting(q) => q.change.UpdateTo? && q.change.references.Some? ==> TransportSafe(q.change.references.value)
    case _ => true
  }

  /** The records after a step, or nothing when it is refused. */
  ghost function Taken(s: Records, c: Catalog, step: Step): Option<Records> {
    if !TransportAccepts(step) then None
    else match step
    case DoCreate(q) => RecordsOf(AdmitCreate(s, c, q))
    case DoExisting(q) => RecordsOf(AdmitExisting(s, c, q))
    case DoRetry(q) => RecordsOf(AdmitRetry(s, c, q))
    case DoDrive(oid) => WorkOf(DriveOperation(s, c, oid))
    case DoRecord(x) => WorkOf(RecordEvidence(s, x))
    case DoFinish(x, finish, evidence, detail, at) => WorkOf(FinishOperation(s, c, x, finish, evidence, detail, at))
    case DoObserve(id, f, at) => WorkOf(PassiveObserve(s, id, f, at))
  }

  ghost function Next(s: Records, c: Catalog, step: Step): Records {
    var n := Taken(s, c, step);
    if n.Some? then n.value else s
  }

  ghost function Play(s: Records, c: Catalog, steps: seq<Step>): Records
    decreases |steps|
  {
    hide Next;
    if steps == [] then s else Play(Next(s, c, steps[0]), c, steps[1..])
  }

  // ---------------------------------------------------------------- the invariant

  /** No stored target holds a NUL. */
  predicate CleanRows(s: Records) {
    forall id :: id in s.desired ==> TargetsClean(s.desired[id])
  }

  /** The invariant of the machine: that of the records, and stored targets that leave no
      room for an edge in disguise. */
  ghost predicate Steady(s: Records, c: Catalog) {
    Invariant(s, c) && CleanRows(s)
  }

  lemma EmptyIsSteady(c: Catalog)
    ensures Steady(EMPTY, c)
  {
    EmptyIsInvariant(c);
  }

  lemma SteadyParts(s: Records, c: Catalog)
    requires Steady(s, c)
    ensures Invariant(s, c) && CleanRows(s)
  {
  }

  lemma TransportedIsClean(input: Submitted, edges: seq<Edge>)
    requires TransportSafe(input) && CanonicalOf(input) == Some(edges)
    ensures TargetsClean(edges)
  {
    assert Accepted(input, edges);
    forall i | 0 <= i < |edges|
      ensures NulFree(edges[i].target)
    {
      var e := edges[i];
      assert e in edges;
      assert Denotes(input, e.slot, e.target);
      var k :| 0 <= k < |input[e.slot]| && input[e.slot][k] == e.target;
      assert PathSegment(input[e.slot][k]);
    }
  }

  /** An update that came over HTTP carries no edge in disguise. */
  lemma TransportForbidsDisguise(s: Records, q: ExistingRequest)
    requires CleanRows(s) && TransportAccepts(DoExisting(q))
    ensures !Disguising(s, q)
  {
    hide CanonicalOf, TransportSafe, Disguises, TargetsClean;
    if q.change.UpdateTo? && q.change.references.Some? && CanonicalOf(q.change.references.value).Some? {
      var edges := CanonicalOf(q.change.references.value).value;
      TransportedIsClean(q.change.references.value, edges);
      StoredIsClean(s, q.id);
      CleanEdgesNeverDisguise(edges, EdgesAt(s.desired, q.id));
    }
  }

  lemma StoredIsClean(s: Records, id: ResourceID)
    requires CleanRows(s)
    ensures TargetsClean(EdgesAt(s.desired, id))
  {
  }

  lemma PutKeepsClean(s: Records, n: Records, id: ResourceID, g: nat, edges: seq<Edge>)
    requires CleanRows(s) && TargetsClean(edges) && n.desired == PutEdges(s.desired, id, g, edges)
    ensures CleanRows(n)
  {
  }

  lemma FewerRowsStayClean(s: Records, n: Records, ids: set<ResourceID>)
    requires CleanRows(s) && n.desired == s.desired - ids
    ensures CleanRows(n)
  {
  }

  lemma PersistWrites(s: Records, rec: Record, t: Transition, x: Execution, desired: EdgeTable, q: Caller, kind: string, updated: bool)
    requires Persist(s, rec, t, x, desired, q, kind, updated).Ok?
    ensures Persist(s, rec, t, x, desired, q, kind, updated).value.records.desired == desired
  {
  }

  lemma CreateKeepsClean(s: Records, c: Catalog, q: CreateRequest, n: Records)
    requires Steady(s, c) && TransportSafe(q.references) && AdmitCreate(s, c, q).Ok? && AdmitCreate(s, c, q).value.records == n
    ensures CleanRows(n)
  {
    hide Invariant, AdmitNew, ShapeAccepts, Replay, CanonicalOf, Addable, RowsAdmitted, Persist, PutEdges, CleanRows, TransportSafe;
    if Replay(s, KeyOf(q.caller), q.caller.fingerprint, CreateKind()).value.None? {
      var edges := CanonicalOf(q.references).value;
      var rec, t := AdmitNewAddable(s, c, q, edges);
      TransportedIsClean(q.references, edges);
      PersistWrites(s, rec, t, NewExecution(rec, t.operation), DesiredAfter(s, rec, Some(edges)), q.caller, CreateKind(), false);
      PutKeepsClean(s, n, q.id, rec.resource.generation, edges);
    }
  }

  lemma ExistingKeepsClean(s: Records, c: Catalog, q: ExistingRequest, n: Records)
    requires Steady(s, c) && TransportAccepts(DoExisting(q)) && AdmitExisting(s, c, q).Ok? && AdmitExisting(s, c, q).value.records == n
    ensures CleanRows(n)
  {
    hide Invariant, AdmitDelete, AdmitUpdate, Replay, CanonicalOf, Addable, RowsAdmitted, Persist, PutEdges, CleanRows, TransportSafe,
         UpdateReferencesError, TargetsClean;
    if Replay(s, KeyOf(q.caller), q.caller.fingerprint, if q.change.DeleteIt? then DeleteKind() else UpdateKind()).value.None? {
      if q.change.DeleteIt? {
        var t := DeleteTransition(s, c, q);
        var rec := s.resources[q.id];
        PersistWrites(s, rec, t, NewExecution(rec, t.operation), DesiredAfter(s, rec, None), q.caller, DeleteKind(), false);
        FewerRowsStayClean(s, n, {});
      } else {
        var rec, t := UpdateTransition(s, c, q);
        var edges := EffectiveDesired(s, c, q);
        if q.change.references.Some? {
          TransportedIsClean(q.change.references.value, edges);
        } else {
          StoredIsClean(s, q.id);
          NoEdgesAreClean();
        }
        PersistWrites(s, rec, t, NewExecution(rec, t.operation), DesiredAfter(s, rec, UpdatedRows(q, edges)), q.caller, UpdateKind(), true);
        if UpdatedRows(q, edges).Some? {
          PutKeepsClean(s, n, q.id, rec.resource.generation, edges);
        } else {
          FewerRowsStayClean(s, n, {});
        }
      }
    }
  }

  lemma NoEdgesAreClean()
    ensures TargetsClean([])
  {
  }

  lemma RetryKeepsClean(s: Records, c: Catalog, q: RetryRequest, n: Records)
    requires Steady(s, c) && AdmitRetry(s, c, q).Ok? && AdmitRetry(s, c, q).value.records == n
    ensures CleanRows(n)
  {
    hide Invariant, AdmitRetryOf, Replay, Addable, RowsAdmitted, RetryExecution, Persist, CleanRows;
    if Replay(s, KeyOf(q.caller), q.caller.fingerprint, RetryKind()).value.None? {
      var t := RetryTransition(s, c, q);
      var failed := s.operations[q.source];
      var rec := s.resources[failed.resourceID];
      PersistWrites(s, rec, t, RetryExecution(rec, failed, s.executions[failed.id], t.operation, q.mapping), DesiredAfter(s, rec, None),
                    q.caller, RetryKind(), false);
      FewerRowsStayClean(s, n, {});
    }
  }

  lemma StepKeepsSteady(s: Records, c: Catalog, step: Step)
    requires Steady(s, c)
    ensures Steady(Next(s, c, step), c)
  {
    hide Invariant, CleanRows, AdmitCreate, AdmitExisting, AdmitRetry, DriveOperation, RecordEvidence, FinishOperation, PassiveObserve,
         Disguising, TransportSafe, PutEdges, Finished;
    if Taken(s, c, step).Some? {
      var n := Taken(s, c, step).value;
      match step
      case DoCreate(q) =>
        CreateKeepsInvariant(s, c, q);
        CreateKeepsClean(s, c, q, n);
      case DoExisting(q) =>
        TransportForbidsDisguise(s, q);
        ExistingKeepsInvariant(s, c, q);
        ExistingKeepsClean(s, c, q, n);
      case DoRetry(q) =>
        RetryKeepsInvariant(s, c, q);
        RetryKeepsClean(s, c, q, n);
      case DoDrive(oid) =>
        DriveKeepsInvariant(s, c, oid, n);
        FewerRowsStayClean(s, n, {});
      case DoRecord(x) =>
        EvidenceKeepsInvariant(s, c, x, n);
        FewerRowsStayClean(s, n, {});
      case DoFinish(x, finish, evidence, detail, at) =>
        FinishKeepsInvariant(s, c, x, finish, evidence, detail, at, n);
        var o := s.operations[x.intent.operationID];
        FewerRowsStayClean(s, n, if n.desired == s.desired then {} else {o.resourceID});
      case DoObserve(id, f, at) =>
        PassiveKeepsInvariant(s, c, id, f, at, n);
        FewerRowsStayClean(s, n, {});
    }
  }

  /** Every run of admissions and worker steps keeps the invariant: one operation in
      progress per resource, matching statuses, executions that fit their operations,
      sound reference rows and an acyclic desired graph. */
  lemma {:induction false} EveryRunKeepsInvariant(s: Records, c: Catalog, steps: seq<Step>)
    requires Steady(s, c)
    ensures Steady(Play(s, c, steps), c)
    decreases |steps|
  {
    hide Steady, Next;
    if steps != [] {
      StepKeepsSteady(s, c, steps[0]);
      EveryRunKeepsInvariant(Next(s, c, steps[0]), c, steps[1..]);
    }
  }

  /** The desired graph is acyclic; desired rows carry their source's generation; desired
      and applied rows join live resources of one owner; and the checks that would report
      a corrupt row have nothing to report. */
  ghost predicate RowsAreSound(s: Records, c: Catalog) {
    && Acyclic(DesiredGraph(s.desired))
    && (forall id :: id in s.desired ==>
          id in s.resources && RowsOk(s, c, id, s.desired[id], s.resources[id].resource.generation))
    && (forall id :: id in s.applied ==> exists g :: RowsOk(s, c, id, s.applied[id], g))
    && (forall id :: !InboundCorrupt(s, id))
    && (forall id :: id in s.resources ==> EvaluateDependencies(s, c, id).NotGated? || EvaluateDependencies(s, c, id).Gated?)
  }

  /** In every state reached from the empty records. */
  lemma ReachableRowsAreSound(c: Catalog, steps: seq<Step>)
    ensures RowsAreSound(Play(EMPTY, c, steps), c)
  {
    hide Play, Acyclic, DesiredGraph, EvaluateDependencies, Books, Bound, InboundCorrupt;
    EmptyIsSteady(c);
    EveryRunKeepsInvariant(EMPTY, c, steps);
    var s := Play(EMPTY, c, steps);
    forall id
      ensures !InboundCorrupt(s, id)
    {
      InboundIsSound(s, c, id);
    }
    forall id | id in s.resources
      ensures EvaluateDependencies(s, c, id).NotGated? || EvaluateDependencies(s, c, id).Gated?
    {
      GateAnswers(s, c, id);
    }
  }

  lemma InboundIsSound(s: Records, c: Catalog, target: ResourceID)
    requires Links(s, c)
    ensures !InboundCorrupt(s, target)
  {
    hide Acyclic, DesiredGraph;
  }

  // -------------------------------------------------------------------- history

  /** The step is an admitted, not replayed, update of the resource. */
  ghost predicate AdmitsUpdate(s: Records, c: Catalog, step: Step, id: ResourceID) {
    && TransportAccepts(step) && step.DoExisting? && step.existing.change.UpdateTo? && step.existing.id == id
    && AdmitExisting(s, c, step.existing).Ok? && !AdmitExisting(s, c, step.existing).value.replay
  }

  ghost function CountUpdates(s: Records, c: Catalog, steps: seq<Step>, id: ResourceID): nat
    decreases |steps|
  {
    hide Next, AdmitsUpdate;
    if steps == [] then 0
    else (if AdmitsUpdate(s, c, steps[0], id) then 1 else 0) + CountUpdates(Next(s, c, steps[0]), c, steps[1..], id)
  }

  lemma PersistCounts(s: Records, rec: Record, t: Transition, x: Execution, desired: EdgeTable, q: Caller, kind: string, updated: bool, id: ResourceID)
    requires Persist(s, rec, t, x, desired, q, kind, updated).Ok?
    ensures UpdatesOf(Persist(s, rec, t, x, desired, q, kind, updated).value.records, id) ==
              UpdatesOf(s, id) + (if updated && id == rec.resource.id then 1 else 0)
    ensures !Persist(s, rec, t, x, desired, q, kind, updated).value.replay
  {
  }

  lemma CreateCounts(s: Records, c: Catalog, q: CreateRequest, id: ResourceID)
    requires Invariant(s, c) && AdmitCreate(s, c, q).Ok?
    ensures UpdatesOf(AdmitCreate(s, c, q).value.records, id) == UpdatesOf(s, id)
  {
    hide Invariant, AdmitNew, ShapeAccepts, Replay, CanonicalOf, Addable, RowsAdmitted, Persist, UpdatesOf;
    if Replay(s, KeyOf(q.caller), q.caller.fingerprint, CreateKind()).value.None? {
      var edges := CanonicalOf(q.references).value;
      var rec, t := AdmitNewAddable(s, c, q, edges);
      PersistCounts(s, rec, t, NewExecution(rec, t.operation), DesiredAfter(s, rec, Some(edges)), q.caller, CreateKind(), false, id);
    }
  }

  lemma ExistingCounts(s: Records, c: Catalog, q: ExistingRequest, id: ResourceID)
    requires TransportAccepts(DoExisting(q)) && Invariant(s, c) && AdmitExisting(s, c, q).Ok?
    ensures UpdatesOf(AdmitExisting(s, c, q).value.records, id) ==
              UpdatesOf(s, id) + (if AdmitsUpdate(s, c, DoExisting(q), id) then 1 else 0)
  {
    hide Invariant, AdmitDelete, AdmitUpdate, Replay, CanonicalOf, Addable, RowsAdmitted, UpdateReferencesError, EffectiveDesired, Persist, UpdatesOf;
    var kind := if q.change.DeleteIt? then DeleteKind() else UpdateKind();
    if Replay(s, KeyOf(q.caller), q.caller.fingerprint, kind).value.None? {
      if q.change.DeleteIt? {
        var t := DeleteTransition(s, c, q);
        var rec := s.resources[q.id];
        PersistCounts(s, rec, t, NewExecution(rec, t.operation), DesiredAfter(s, rec, None), q.caller, DeleteKind(), false, id);
      } else {
        var rec, t := UpdateTransition(s, c, q);
        PersistCounts(s, rec, t, NewExecution(rec, t.operation), DesiredAfter(s, rec, UpdatedRows(q, EffectiveDesired(s, c, q))),
                      q.caller, UpdateKind(), true, id);
      }
    }
  }

  lemma RetryCounts(s: Records, c: Catalog, q: RetryRequest, id: ResourceID)
    requires Invariant(s, c) && AdmitRetry(s, c, q).Ok?
    ensures UpdatesOf(AdmitRetry(s, c, q).value.records, id) == UpdatesOf(s, id)
  {
    hide Invariant, AdmitRetryOf, Replay, Addable, RowsAdmitted, RetryExecution, Persist, UpdatesOf;
    if Replay(s, KeyOf(q.caller), q.caller.fingerprint, RetryKind()).value.None? {
      var t := RetryTransition(s, c, q);
      var failed := s.operations[q.source];
      var rec := s.resources[failed.resourceID];
      PersistCounts(s, rec, t, RetryExecution(rec, failed, s.executions[failed.id], t.operation, q.mapping), DesiredAfter(s, rec, None),
                    q.caller, RetryKind(), false, id);
    }
  }

  /** Workers bind no keys and admit no updates; of the resources they change only statuses. */
  ghost predicate SameAdmissions(s: Records, n: Records) {
    && n.updates == s.updates && n.bindings == s.bindings
    && n.resources.Keys == s.resources.Keys
    && forall id :: id in s.resources ==> n.resources[id].resource == s.resources[id].resource
  }

  lemma AdvanceAdmitsNothing(s: Records, id: ResourceID, o: Operation, x: Execution, next: Phase, gated: bool, at: Time)
    requires id in s.resources && AdvanceThrough(s, id, o, x, next, gated, at).Ok?
    ensures SameAdmissions(s, AdvanceThrough(s, id, o, x, next, gated, at).value)
  {
    hide Advance, SetDependencyCondition, Released, InternalEventID;
  }

  lemma GateAdmitsNothing(s: Records, id: ResourceID, o: Operation, x: Execution, kind: DependencyClass, at: Time)
    requires id in s.resources && SettleGateBlock(s, id, o, x, kind, at).Ok?
    ensures SameAdmissions(s, SettleGateBlock(s, id, o, x, kind, at).value)
  {
    hide BuildFinishEvidence, SetDependencyCondition, GateFailure, BlockReason;
  }

  lemma DriveAdmitsNothing(s: Records, c: Catalog, oid: OperationID, n: Records)
    requires DriveOperation(s, c, oid) == Ok(n)
    ensures SameAdmissions(s, n)
  {
    hide AdvanceThrough, SettleGateBlock, EvaluateDependencies, SameAdmissions;
    var o, x := s.operations[oid], s.executions[oid];
    var next, at := NextPhase(o).value, o.phaseChangedAt + 1;
    if AdvanceThrough(s, o.resourceID, o, x, next, false, at).Ok? {
      AdvanceAdmitsNothing(s, o.resourceID, o, x, next, false, at);
    }
    if AdvanceThrough(s, o.resourceID, o, x, next, true, at).Ok? {
      AdvanceAdmitsNothing(s, o.resourceID, o, x, next, true, at);
    }
    var gate := EvaluateDependencies(s, c, o.resourceID);
    if gate.Gated? && SettleGateBlock(s, o.resourceID, o, x, gate.evaluation.kind, at).Ok? {
      GateAdmitsNothing(s, o.resourceID, o, x, gate.evaluation.kind, at);
    }
  }

  lemma FailureAdmitsNothing(s: Records, id: ResourceID, o: Operation, x: Execution, finish: Finish, detail: string, at: Time)
    requires id in s.resources
    ensures FinishFailed(s, id, o, x, finish, at).Ok? ==> SameAdmissions(s, FinishFailed(s, id, o, x, finish, at).value)
    ensures FinishRejected(s, id, o, x, detail, at).Ok? ==> SameAdmissions(s, FinishRejected(s, id, o, x, detail, at).value)
  {
    hide BuildFinishEvidence, DriftAfter, Aligned, AlignedExecution, RejectionReason;
  }

  lemma SuccessAdmitsNothing(s: Records, id: ResourceID, o: Operation, x: Execution, finish: Finish, snapshot: Option<ResourceOutputs>, at: Time)
    requires id in s.resources && FinishSucceeded(s, id, o, x, finish, snapshot, at).Ok?
    ensures SameAdmissions(s, FinishSucceeded(s, id, o, x, finish, snapshot, at).value)
  {
    hide BuildFinishEvidence, Publish, RowsAfterSuccess, DriftAfter, Aligned, AlignedExecution;
  }

  lemma FinishAdmitsNothing(s: Records, c: Catalog, x: Execution, finish: Finish, evidence: Option<OutputEvidence>, detail: string,
                            at: Time, n: Records)
    requires FinishOperation(s, c, x, finish, evidence, detail, at) == Ok(n)
    ensures SameAdmissions(s, n)
  {
    hide FinishFailed, FinishRejected, FinishSucceeded, PlanTerminalOutputs, EvidenceRepresentable, MappingContradicts;
    var o := s.operations[x.intent.operationID];
    FailureAdmitsNothing(s, o.resourceID, o, x, finish, detail, at);
    if finish.succeeded {
      var p := PlanTerminalOutputs(c[x.intent.typeRef].outputs, x.intent.capability, evidence, x.intent.targetGeneration, at).value;
      match p
      case PlanPublish(snapshot) => SuccessAdmitsNothing(s, o.resourceID, o, x, finish, Some(snapshot), at);
      case PlanNone => SuccessAdmitsNothing(s, o.resourceID, o, x, finish, None, at);
      case _ =>
    }
  }

  lemma ObserveAdmitsNothing(s: Records, id: ResourceID, f: ObservedFacts, at: Time, n: Records)
    requires PassiveObserve(s, id, f, at) == Ok(n)
    ensures SameAdmissions(s, n)
  {
    hide ApplyObservation, ActiveFor, DriftAfter, PutStatus;
    forall status, drift | id in s.resources
      ensures SameAdmissions(s, PutStatus(s, id, status, drift))
    {
      StatusAdmitsNothing(s, id, status, drift);
    }
  }

  lemma StatusAdmitsNothing(s: Records, id: ResourceID, status: ResourceStatus, drift: set<ResourceID>)
    requires id in s.resources
    ensures SameAdmissions(s, PutStatus(s, id, status, drift))
  {
  }

  lemma WorkAdmitsNothing(s: Records, c: Catalog, step: Step)
    requires step.DoDrive? || step.DoRecord? || step.DoFinish? || step.DoObserve?
    ensures SameAdmissions(s, Next(s, c, step))
  {
    hide AdmitCreate, AdmitExisting, AdmitRetry, DriveOperation, FinishOperation, PassiveObserve;
    if Taken(s, c, step).Some? {
      var n := Taken(s, c, step).value;
      match step
      case DoDrive(oid) => DriveAdmitsNothing(s, c, oid, n);
      case DoRecord(x) =>
      case DoFinish(x, finish, evidence, detail, at) => FinishAdmitsNothing(s, c, x, finish, evidence, detail, at, n);
      case DoObserve(id, f, at) => ObserveAdmitsNothing(s, id, f, at, n);
    }
  }

  lemma StepCounts(s: Records, c: Catalog, step: Step, id: ResourceID)
    requires Invariant(s, c)
    ensures UpdatesOf(Next(s, c, step), id) == UpdatesOf(s, id) + (if AdmitsUpdate(s, c, step, id) then 1 else 0)
  {
    hide Invariant, AdmitCreate, AdmitExisting, AdmitRetry, DriveOperation, RecordEvidence, FinishOperation, PassiveObserve;
    if Taken(s, c, step).Some? {
      match step
      case DoCreate(q) => CreateCounts(s, c, q, id);
      case DoExisting(q) => ExistingCounts(s, c, q, id);
      case DoRetry(q) => RetryCounts(s, c, q, id);
      case _ => WorkAdmitsNothing(s, c, step);
    }
  }

  /** A resource's generation is one more than the updates admitted for it, replays not
      counted, and equals the observed generation, over any run from the beginning. */
  lemma {:induction false} RunCounts(s: Records, c: Catalog, steps: seq<Step>, id: ResourceID)
    requires Steady(s, c)
    ensures UpdatesOf(Play(s, c, steps), id) == UpdatesOf(s, id) + CountUpdates(s, c, steps, id)
    decreases |steps|
  {
    hide Steady, Next, AdmitsUpdate, UpdatesOf;
    if steps != [] {
      assert Invariant(s, c) by { SteadyParts(s, c); }
      StepCounts(s, c, steps[0], id);
      StepKeepsSteady(s, c, steps[0]);
      RunCounts(Next(s, c, steps[0]), c, steps[1..], id);
    }
  }

  lemma GenerationsCountUpdates(c: Catalog, steps: seq<Step>, id: ResourceID)
    requires id in Play(EMPTY, c, steps).resources
    ensures var s := Play(EMPTY, c, steps);
            && s.resources[id].resource.generation == 1 + CountUpdates(EMPTY, c, steps, id)
            && s.resources[id].resource.generation == s.resources[id].status.observedGeneration
            && (ActiveFor(s, id).Some? ==> ActiveFor(s, id).value.targetGeneration == s.resources[id].resource.generation)
            && (forall a, b :: IsActive(s, id, a) && IsActive(s, id, b) ==> a == b)
  {
    hide Invariant, Play, CountUpdates, ActiveFor, Books;
    EmptyIsSteady(c);
    EveryRunKeepsInvariant(EMPTY, c, steps);
    RunCounts(EMPTY, c, steps, id);
    GenerationCountsUpdates(Play(EMPTY, c, steps), c, id);
    InvariantParts(Play(EMPTY, c, steps), c);
    ActiveIsLatest(Play(EMPTY, c, steps), c, id);
  }
}
