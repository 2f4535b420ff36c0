/** Operator mutations: one audited, idempotent scheduling decision per call, and what
    any sequence of calls and worker activity leaves behind. */
module Operator {
  import opened Basics
  import opened Domain
  import opened Provisioning
  import opened Recovery

  // -------------------------------------------------------------------- records

  datatype Aggregate = OfOperation(operationID: OperationID) | OfResource(resourceID: ResourceID)

  /** The identity of a work row, which is also its deduplication key. */
  datatype WorkID =
    | ObserveID(operationID: OperationID, sequence: nat)
    | OperatorID(actionID: string, kind: WorkKind)
    | WorkerID(kind: WorkKind, text: string)

  datatype Work = Work(id: WorkID, kind: WorkKind, aggregate: Aggregate, attempt: nat, sequence: nat, state: WorkState)

  predicate IsActive(w: Work) {
    w.state.WorkPending? || w.state.WorkLeased?
  }

  datatype ExecutionRow = ExecutionRow(summary: ExecutionSummary, currentAttempt: nat, nextObservation: nat)

  datatype OperationRow = OperationRow(state: OperationState, resourceID: ResourceID, version: nat, dependencyBlocked: bool)

  datatype ResourceRow = ResourceRow(state: ResourceState, activeOperation: bool, version: nat)

  /** What a call asks for: an observation of an operation or a resource, or the recovery
      of one dead row. */
  datatype Target = ObserveOperation(operationID: OperationID) | ObserveResource(resourceID: ResourceID) | RecoverWork(workID: WorkID)

  /** The immutable audit row. */
  datatype Action = Action(id: string, actor: string, target: Target, requestID: string, created: WorkID)

  datatype ScopedKey = ScopedKey(scope: string, key: string)

  datatype BoundKey = BoundKey(fingerprint: Target, actionID: string)

  /** `made` records, for the history, which rows operator calls inserted. */
  datatype Desk = Desk(
    operations: map<OperationID, OperationRow>,
    resources: map<ResourceID, ResourceRow>,
    executions: map<OperationID, ExecutionRow>,
    work: map<WorkID, Work>,
    actions: map<string, Action>,
    keys: map<ScopedKey, BoundKey>,
    made: set<WorkID>)

  // ------------------------------------------------------------------- the queue

  predicate HasActive(d: Desk, kind: WorkKind, aggregate: Aggregate) {
    exists id :: id in d.work && d.work[id].kind == kind && IsActive(d.work[id]) && d.work[id].aggregate == aggregate
  }

  datatype OperatorError =
    | MalformedCall | NotAuthorized | KeyConflict | NotFound | DiagnosticStale | NotAllowed(assessment: Assessment)
    | NotDead | AlreadyActive | Unsafe | IdentityTaken

  /** A row whose key is known is silently dropped; a second active row of the same kind
      for the same aggregate is refused. */
  function Enqueue(d: Desk, w: Work): Result<Desk, OperatorError> {
    if w.id in d.work then Ok(d)
    else if HasActive(d, w.kind, w.aggregate) then Err(AlreadyActive)
    else Ok(d.(work := d.work[w.id := w]))
  }

  // ------------------------------------------------------------------- the calls

  /** One call. Whether the actor is authorized, the diagnostic revision still matches and
      the provisioner is registered, and the fresh audit identity, are inputs. */
  datatype Call = Call(
    actor: string, actorKind: string, key: string, requestID: string, target: Target, authorized: bool, current: bool,
    registered: bool, actionID: string)

  function NextSequence(x: ExecutionRow): nat {
    if x.nextObservation == 0 then 1 else x.nextObservation
  }

  /** Takes the next observation number and the row that goes with it. */
  function ScheduleObserve(d: Desk, oid: OperationID): Result<(Desk, WorkID), OperatorError>
    requires oid in d.executions
  {
    var x := d.executions[oid];
    var sequence := NextSequence(x);
    var w := Work(ObserveID(oid, sequence), Observe, OfOperation(oid), 0, sequence, WorkPending);
    var taken := d.(executions := d.executions[oid := x.(nextObservation := sequence + 1)]);
    var queued :- Enqueue(taken, w);
    Ok((queued, w.id))
  }

  function ScheduleOwn(d: Desk, actionID: string, kind: WorkKind, aggregate: Aggregate, sequence: nat): Result<(Desk, WorkID), OperatorError> {
    var w := Work(OperatorID(actionID, kind), kind, aggregate, 0, sequence, WorkPending);
    var queued :- Enqueue(d, w);
    Ok((queued, w.id))
  }

  function SummaryOf(d: Desk, oid: OperationID): Option<ExecutionSummary> {
    if oid in d.executions then Some(d.executions[oid].summary) else None
  }

  function ApplyObserveOperation(d: Desk, q: Call, oid: OperationID): Result<(Desk, WorkID), OperatorError> {
    if oid !in d.operations then Err(NotFound)
    else
      var o := d.operations[oid];
      var assessment := PlanOperationObserve(ObserveSnapshot(o.state, SummaryOf(d, oid), HasActive(d, Observe, OfOperation(oid)),
                                                               o.dependencyBlocked, q.registered));
      if oid !in d.executions then Err(NotAllowed(assessment))
      else if !q.current then Err(DiagnosticStale)
      else if !Allows(assessment, TriggerObserve) then Err(NotAllowed(assessment))
      else ScheduleObserve(d, oid)
  }

  function ApplyObserveResource(d: Desk, q: Call, rid: ResourceID): Result<(Desk, WorkID), OperatorError> {
    if rid !in d.resources then Err(NotFound)
    else if !q.current then Err(DiagnosticStale)
    else
      var r := d.resources[rid];
      var assessment := PlanResourcePassiveObserve(PassiveSnapshot(r.state, r.activeOperation,
                                                                    HasActive(d, PassiveObserve, OfResource(rid)), q.registered));
      if !Allows(assessment, TriggerPassiveObserve) then Err(NotAllowed(assessment))
      else ScheduleOwn(d, q.actionID, PassiveObserve, OfResource(rid), if r.version == 0 then 1 else r.version)
  }

  /** An execution has moved past the attempt or the observation the row was for. */
  predicate Superseded(w: Work, x: ExecutionRow) {
    || (w.kind.Dispatch? && w.attempt != x.currentAttempt)
    || (w.kind.Observe? && (w.sequence == 0 || w.sequence + 1 != x.nextObservation))
  }

  function EquivalentKind(k: WorkKind): WorkKind {
    if k.Dispatch? then Observe else k
  }

  function DeadSnapshot(d: Desk, w: Work, registered: bool): Result<DeadWorkSnapshot, OperatorError> {
    match w.aggregate
    case OfOperation(oid) =>
      if oid !in d.operations then Err(NotFound)
      else if w.kind.Drive? && d.operations[oid].resourceID !in d.resources then Err(NotFound)
      else
        var known := !w.kind.Drive? && oid in d.executions;
        var found := w.kind.Drive? || known;
        Ok(DeadWorkSnapshot(w.kind, w.state,
                            OperationTarget(d.operations[oid].state, if known then Some(d.executions[oid].summary) else None),
                            found && HasActive(d, EquivalentKind(w.kind), w.aggregate),
                            known && Superseded(w, d.executions[oid]),
                            found && registered))
    case OfResource(rid) =>
      if rid !in d.resources then Err(NotFound)
      else Ok(DeadWorkSnapshot(w.kind, w.state, ResourceTarget(d.resources[rid].state, d.resources[rid].activeOperation),
                               HasActive(d, w.kind, w.aggregate), false, registered))
  }

  /** New work from the current state of the dead row's aggregate, never another dispatch. */
  function Replace(d: Desk, q: Call, w: Work): Result<(Desk, WorkID), OperatorError> {
    match w.kind
    case Dispatch | Observe =>
      if w.aggregate.OfOperation? && w.aggregate.operationID in d.executions then ScheduleObserve(d, w.aggregate.operationID) else Err(Unsafe)
    case PassiveObserve =>
      if w.aggregate.OfResource? && w.aggregate.resourceID in d.resources then
        var version := d.resources[w.aggregate.resourceID].version;
        ScheduleOwn(d, q.actionID, PassiveObserve, w.aggregate, if version == 0 then 1 else version)
      else Err(Unsafe)
    case Drive => if w.aggregate.OfOperation? then ScheduleOwn(d, q.actionID, Drive, w.aggregate, 0) else Err(Unsafe)
    case WakeDependents => if w.aggregate.OfResource? then ScheduleOwn(d, q.actionID, WakeDependents, w.aggregate, 0) else Err(Unsafe)
  }

  function ApplyRecover(d: Desk, q: Call, wid: WorkID): Result<(Desk, WorkID), OperatorError> {
    if wid !in d.work then Err(NotFound)
    else if !d.work[wid].state.WorkDead? then Err(NotDead)
    else
      var snapshot :- DeadSnapshot(d, d.work[wid], q.registered);
      if !q.current then Err(DiagnosticStale)
      else
        var assessment := PlanDeadWorkRecovery(snapshot);
        if !Allows(assessment, RecoverDeadWork) then Err(NotAllowed(assessment))
        else Replace(d, q, d.work[wid])
  }

  function Apply(d: Desk, q: Call): Result<(Desk, WorkID), OperatorError> {
    match q.target
    case ObserveOperation(oid) => ApplyObserveOperation(d, q, oid)
    case ObserveResource(rid) => ApplyObserveResource(d, q, rid)
    case RecoverWork(wid) => ApplyRecover(d, q, wid)
  }

  const MAX_KEY_LENGTH := 200

  predicate CallComplete(q: Call) {
    q.actor != "" && q.actorKind != "" && !Blank(q.key) && |q.key| <= MAX_KEY_LENGTH && !Blank(q.requestID)
  }

  datatype Accepted = Accepted(desk: Desk, actionID: string, created: WorkID, replay: bool)

  /** One transaction: the bound answer, or the scheduling decision together with its
      audit row and its key. */
  function Mutate(d: Desk, q: Call): Result<Accepted, OperatorError> {
    var k := ScopedKey(q.actor, q.key);
    if !CallComplete(q) then Err(MalformedCall)
    else if !q.authorized then Err(NotAuthorized)
    else if k in d.keys then
      if d.keys[k].fingerprint != q.target then Err(KeyConflict)
      else if d.keys[k].actionID !in d.actions then Err(NotFound)
      else
        var action := d.actions[d.keys[k].actionID];
        if action.target.RecoverWork? && action.target.workID !in d.work then Err(NotFound)
        else Ok(Accepted(d, action.id, action.created, true))
    else
      var done :- Apply(d, q);
      if q.actionID in done.0.actions || done.1 !in done.0.work then Err(IdentityTaken)
      else
        var action := Action(q.actionID, q.actor, q.target, q.requestID, done.1);
        Ok(Accepted(done.0.(actions := done.0.actions[q.actionID := action],
                            keys := done.0.keys[k := BoundKey(q.target, q.actionID)],
                            made := if done.1 in d.work then d.made else d.made + {done.1}),
                    q.actionID, done.1, false))
  }
}
