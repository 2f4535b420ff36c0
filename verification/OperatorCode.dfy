/** Operator mutations as the service runs them, one staged transaction per call. */
module OperatorCode {
  import opened Basics
  import opened Domain
  import opened Operator
  import opened OperatorRuns
  import opened Provisioning
  import opened Recovery

  ghost predicate Settles(before: Desk, spec: Result<Accepted, OperatorError>, after: Desk, r: Result<(string, WorkID, bool), OperatorError>) {
    match spec
    case Ok(a) => r == Ok((a.actionID, a.created, a.replay)) && after == a.desk
    case Err(e) => r == Err(e) && after == before
  }

  ghost predicate Staged(spec: Result<(Desk, WorkID), OperatorError>, tx: Desk, r: Result<WorkID, OperatorError>) {
    match spec
    case Ok(done) => r == Ok(done.1) && tx == done.0
    case Err(e) => r == Err(e)
  }

  class OperatorService {
    var desk: Desk

    ghost predicate Valid()
      reads this
    {
      Sound(desk) && OneActive(desk)
    }

    constructor ()
      ensures Valid() && desk == EMPTY
    {
      desk := EMPTY;
      new;
      EmptyIsSound();
    }

    /** The active rows of one aggregate, searched for a kind. */
    method FindActive(tx: Desk, kind: WorkKind, aggregate: Aggregate) returns (found: bool)
      ensures found <==> HasActive(tx, kind, aggregate)
    {
      var left := tx.work.Keys;
      while left != {}
        invariant left <= tx.work.Keys
        invariant forall id :: id in tx.work && id !in left ==>
                    !(tx.work[id].kind == kind && IsActive(tx.work[id]) && tx.work[id].aggregate == aggregate)
        decreases left
      {
        var id :| id in left;
        left := left - {id};
        if tx.work[id].kind == kind && IsActive(tx.work[id]) && tx.work[id].aggregate == aggregate {
          return true;
        }
      }
      return false;
    }

    method Queue(tx: Desk, w: Work) returns (r: Result<Desk, OperatorError>)
      ensures r == Enqueue(tx, w)
    {
      if w.id in tx.work {
        return Ok(tx);
      }
      var active := FindActive(tx, w.kind, w.aggregate);
      if active {
        return Err(AlreadyActive);
      }
      return Ok(tx.(work := tx.work[w.id := w]));
    }

    method NextObserve(before: Desk, oid: OperationID) returns (tx: Desk, r: Result<WorkID, OperatorError>)
      requires oid in before.executions
      ensures Staged(ScheduleObserve(before, oid), tx, r)
    {
      hide HasActive;
      tx := before;
      var x := tx.executions[oid];
      var sequence := x.nextObservation;
      if sequence == 0 {
        sequence := 1;
      }
      tx := tx.(executions := tx.executions[oid := x.(nextObservation := sequence + 1)]);
      var queued := Queue(tx, Work(ObserveID(oid, sequence), Observe, OfOperation(oid), 0, sequence, WorkPending));
      if queued.Err? {
        return tx, Err(queued.error);
      }
      return queued.value, Ok(ObserveID(oid, sequence));
    }

    method OwnWork(before: Desk, actionID: string, kind: WorkKind, aggregate: Aggregate, sequence: nat) returns (tx: Desk, r: Result<WorkID, OperatorError>)
      ensures Staged(ScheduleOwn(before, actionID, kind, aggregate, sequence), tx, r)
    {
      hide HasActive;
      var queued := Queue(before, Work(OperatorID(actionID, kind), kind, aggregate, 0, sequence, WorkPending));
      if queued.Err? {
        return before, Err(queued.error);
      }
      return queued.value, Ok(OperatorID(actionID, kind));
    }

    method TriggerOperationObservation(q: Call, oid: OperationID) returns (tx: Desk, r: Result<WorkID, OperatorError>)
      ensures Staged(ApplyObserveOperation(desk, q, oid), tx, r)
    {
      hide HasActive, PlanOperationObserve, ScheduleObserve;
      tx := desk;
      if oid !in tx.operations {
        return tx, Err(NotFound);
      }
      var o := tx.operations[oid];
      var active := FindActive(tx, Observe, OfOperation(oid));
      var assessment := PlanOperationObserve(ObserveSnapshot(o.state, SummaryOf(tx, oid), active, o.dependencyBlocked, q.registered));
      if oid !in tx.executions {
        return tx, Err(NotAllowed(assessment));
      }
      if !q.current {
        return tx, Err(DiagnosticStale);
      }
      if !Allows(assessment, TriggerObserve) {
        return tx, Err(NotAllowed(assessment));
      }
      tx, r := NextObserve(tx, oid);
    }

    method TriggerResourcePassiveObservation(q: Call, rid: ResourceID) returns (tx: Desk, r: Result<WorkID, OperatorError>)
      ensures Staged(ApplyObserveResource(desk, q, rid), tx, r)
    {
      hide HasActive, PlanResourcePassiveObserve, ScheduleOwn;
      tx := desk;
      if rid !in tx.resources {
        return tx, Err(NotFound);
      }
      if !q.current {
        return tx, Err(DiagnosticStale);
      }
      var row := tx.resources[rid];
      var active := FindActive(tx, PassiveObserve, OfResource(rid));
      var assessment := PlanResourcePassiveObserve(PassiveSnapshot(row.state, row.activeOperation, active, q.registered));
      if !Allows(assessment, TriggerPassiveObserve) {
        return tx, Err(NotAllowed(assessment));
      }
      tx, r := OwnWork(tx, q.actionID, PassiveObserve, OfResource(rid), if row.version == 0 then 1 else row.version);
    }

    method ReplaceDeadWork(q: Call, w: Work) returns (tx: Desk, r: Result<WorkID, OperatorError>)
      ensures Staged(Replace(desk, q, w), tx, r)
    {
      hide HasActive, ScheduleObserve, ScheduleOwn;
      tx := desk;
      match w.kind
      case Dispatch | Observe =>
        if w.aggregate.OfResource? || w.aggregate.operationID !in tx.executions {
          return tx, Err(Unsafe);
        }
        tx, r := NextObserve(tx, w.aggregate.operationID);
      case PassiveObserve =>
        if w.aggregate.OfOperation? || w.aggregate.resourceID !in tx.resources {
          return tx, Err(Unsafe);
        }
        var version := tx.resources[w.aggregate.resourceID].version;
        tx, r := OwnWork(tx, q.actionID, PassiveObserve, w.aggregate, if version == 0 then 1 else version);
      case Drive =>
        if w.aggregate.OfResource? {
          return tx, Err(Unsafe);
        }
        tx, r := OwnWork(tx, q.actionID, Drive, w.aggregate, 0);
      case WakeDependents =>
        if w.aggregate.OfOperation? {
          return tx, Err(Unsafe);
        }
        tx, r := OwnWork(tx, q.actionID, WakeDependents, w.aggregate, 0);
    }

    method RecoverDead(q: Call, wid: WorkID) returns (tx: Desk, r: Result<WorkID, OperatorError>)
      ensures Staged(ApplyRecover(desk, q, wid), tx, r)
    {
      hide HasActive, PlanDeadWorkRecovery, Replace, DeadSnapshot;
      tx := desk;
      if wid !in tx.work {
        return tx, Err(NotFound);
      }
      if !tx.work[wid].state.WorkDead? {
        return tx, Err(NotDead);
      }
      var snapshot := DeadSnapshot(tx, tx.work[wid], q.registered);
      if snapshot.Err? {
        return tx, Err(snapshot.error);
      }
      if !q.current {
        return tx, Err(DiagnosticStale);
      }
      var assessment := PlanDeadWorkRecovery(snapshot.value);
      if !Allows(assessment, RecoverDeadWork) {
        return tx, Err(NotAllowed(assessment));
      }
      tx, r := ReplaceDeadWork(q, tx.work[wid]);
    }

    /** The mutation runner: the bound answer, or work, audit row and key in one commit. */
    method RunMutation(q: Call) returns (r: Result<(string, WorkID, bool), OperatorError>)
      requires Valid()
      modifies this
      ensures Settles(old(desk), Mutate(old(desk), q), desk, r)
      ensures Valid()
    {
      hide Sound, OneActive, ApplyObserveOperation, ApplyObserveResource, ApplyRecover;
      StepKeepsSound(desk, Called(q));
      StepKeepsOneActive(desk, Called(q));
      if !CallComplete(q) {
        return Err(MalformedCall);
      }
      if !q.authorized {
        return Err(NotAuthorized);
      }
      var k := ScopedKey(q.actor, q.key);
      if k in desk.keys {
        var bound := desk.keys[k];
        if bound.fingerprint != q.target {
          return Err(KeyConflict);
        }
        if bound.actionID !in desk.actions {
          return Err(NotFound);
        }
        var recorded := desk.actions[bound.actionID];
        if recorded.target.RecoverWork? && recorded.target.workID !in desk.work {
          return Err(NotFound);
        }
        return Ok((recorded.id, recorded.created, true));
      }
      var tx, applied := desk, Err(NotFound);
      match q.target {
        case ObserveOperation(oid) => tx, applied := TriggerOperationObservation(q, oid);
        case ObserveResource(rid) => tx, applied := TriggerResourcePassiveObservation(q, rid);
        case RecoverWork(wid) => tx, applied := RecoverDead(q, wid);
      }
      if applied.Err? {
        return Err(applied.error);
      }
      var created := applied.value;
      if q.actionID in tx.actions || created !in tx.work {
        return Err(IdentityTaken);
      }
      tx := tx.(actions := tx.actions[q.actionID := Action(q.actionID, q.actor, q.target, q.requestID, created)]);
      tx := tx.(keys := tx.keys[k := BoundKey(q.target, q.actionID)]);
      tx := tx.(made := if created in desk.work then desk.made else desk.made + {created});
      desk := tx;
      return Ok((q.actionID, created, false));
    }
  }
}
