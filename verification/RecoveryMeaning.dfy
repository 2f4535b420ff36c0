/** What the recovery planner answers and what an operator's call then does, as conditions
    on the rows themselves. */
module RecoveryMeaning {
  import opened Basics
  import opened Domain
  import opened Provisioning
  import opened Recovery
  import opened Operator
  import opened OperatorRuns

  // -------------------------------------------------------------- the assessments

  predicate Over(s: OperationState) {
    s in {OpSucceeded, OpFailed, OpCanceled}
  }

  /** The backend still owes an answer: the outcome of an attempt, or its outputs. */
  predicate Outstanding(x: ExecutionSummary) {
    x.state in {AttemptUnknown, AttemptAccepted} || (x.state == AttemptSucceeded && x.resolution == ResolutionPending)
  }

  function When(c: bool, r: DiagnosticReason): set<DiagnosticReason> {
    if c then {r} else {}
  }

  function ReasonsOf(a: Assessment): set<DiagnosticReason> {
    set i | 0 <= i < |a.reasons| :: a.reasons[i]
  }

  /** The assessment of an operation: its state, every reason that applies and no other, and
      whether an observation may be triggered. */
  lemma OperationAssessment(s: ObserveSnapshot)
    ensures var a := PlanOperationObserve(s);
            var asked := !Over(s.operationState) && s.execution != None && s.registered;
            && (a.state == RecoveryTerminal <==> Over(s.operationState))
            && (a.state == ManualInterventionNeeded <==>
                  !Over(s.operationState) && (s.execution == None || !s.registered || s.execution.value.state == AttemptFailed))
            && (a.state == AmbiguousWaitingEvidence <==> asked && Outstanding(s.execution.value) && s.execution.value.correlation == CorrUnknown)
            && (a.state == SafeObserve <==> asked && Outstanding(s.execution.value) && s.execution.value.correlation != CorrUnknown)
            && (a.state == NoActionNeeded <==> asked && !Outstanding(s.execution.value) && s.execution.value.state != AttemptFailed)
            && a.actions == if asked && Outstanding(s.execution.value) && !s.activeObserve then [TriggerObserve] else []
  {
  }

  lemma OperationReasons(s: ObserveSnapshot)
    ensures var a := PlanOperationObserve(s);
            ReasonsOf(a) ==
              if Over(s.operationState) then {OperationTerminal}
              else if s.execution == None then {ExecutionRecordMissing}
              else if !s.registered then {RegistrationMissing}
              else if s.execution.value.state == AttemptFailed then {ExecutionEvidencePending}
              else if Outstanding(s.execution.value) then
                When(s.execution.value.correlation == CorrUnknown, AmbiguousExecution)
                + When(s.execution.value.state == AttemptSucceeded, OutputRecoveryPending) + When(s.activeObserve, ObservationInFlight)
              else if s.dependencyBlocked then {DependencyBlocked} else {ExecutionNotObservable}
  {
    var a := PlanOperationObserve(s);
    forall r
      ensures r in ReasonsOf(a) <==> r in a.reasons
    {
      if r in a.reasons {
        var i :| 0 <= i < |a.reasons| && a.reasons[i] == r;
      }
    }
  }

  /** The assessment of a resource: a passive observation may be triggered exactly for a
      registered resource that is not deleted, with no operation and no other passive
      observation under way; any other answer names the first thing in its way. */
  lemma ResourceAssessment(s: PassiveSnapshot)
    ensures var a := PlanResourcePassiveObserve(s);
            && (Allows(a, TriggerPassiveObserve) <==>
                  s.resourceState != RsDeleted && s.registered && !s.activeOperation && !s.activePassiveObserve)
            && !Allows(a, TriggerObserve) && !Allows(a, RecoverDeadWork)
            && (a.state == SafePassiveObserve <==> Allows(a, TriggerPassiveObserve))
            && (a.state == UnsupportedRepair <==> s.resourceState == RsDeleted)
            && (a.state == ManualInterventionNeeded <==> s.resourceState != RsDeleted && !s.registered)
            && (a.state == NoActionNeeded <==> s.resourceState != RsDeleted && s.registered && (s.activeOperation || s.activePassiveObserve))
            && a.reasons == if s.resourceState == RsDeleted then [ResourceDeletedReason]
                            else if !s.registered then [RegistrationMissing]
                            else if s.activeOperation then [ActiveOperationPresent]
                            else if s.activePassiveObserve then [ObservationInFlight] else []
  {
  }

  /** The assessment of dead work for an operation. A dead dispatch is never dispatched
      again: it is recovered by an observation, and only when there is something to observe. */
  lemma DeadOperationAssessment(s: DeadWorkSnapshot)
    requires s.target.OperationTarget?
    ensures var a := PlanDeadWorkRecovery(s);
            var asks := s.kind == Dispatch || s.kind == Observe;
            var live := s.state == WorkDead && !Over(s.target.operationState) && !s.superseded;
            var known := live && s.registered && (asks ==> s.target.execution != None);
            var seen := known && s.target.execution != None && Outstanding(s.target.execution.value);
            && (Allows(a, RecoverDeadWork) <==> known && !s.activeEquivalent && (s.kind == Drive || (asks && seen)))
            && !Allows(a, TriggerObserve) && !Allows(a, TriggerPassiveObserve)
            && (a.state == RecoverySuperseded <==> s.state == WorkDead && (Over(s.target.operationState) || s.superseded))
            && (a.state == SafeRecoverDeadWork <==>
                  Allows(a, RecoverDeadWork) && !(s.kind == Dispatch && s.target.execution.value.correlation == CorrUnknown))
            && (a.state == AmbiguousWaitingEvidence <==>
                  Allows(a, RecoverDeadWork) && s.kind == Dispatch && s.target.execution.value.correlation == CorrUnknown)
            && (a.state == ManualInterventionNeeded <==>
                  live && ((asks && s.target.execution == None) || !s.registered || (s.kind == Dispatch && known && !seen)))
            && (a.state == UnsupportedRepair <==> known && !s.activeEquivalent && s.kind in {PassiveObserve, WakeDependents})
  {
  }

  lemma DeadResourceAssessment(s: DeadWorkSnapshot)
    requires s.target.ResourceTarget?
    ensures var a := PlanDeadWorkRecovery(s);
            var fits := s.state == WorkDead && s.kind in {PassiveObserve, WakeDependents};
            var rests := fits && !s.target.activeOperation && s.target.resourceState != RsDeleted;
            && (Allows(a, RecoverDeadWork) <==> rests && !s.activeEquivalent && (s.kind == WakeDependents || s.registered))
            && !Allows(a, TriggerObserve) && !Allows(a, TriggerPassiveObserve)
            && (a.state == SafeRecoverDeadWork <==> Allows(a, RecoverDeadWork))
            && (a.state == ManualInterventionNeeded <==> rests && s.kind == PassiveObserve && !s.registered)
            && (a.state == UnsupportedRepair <==>
                  s.state == WorkDead && (!fits || (!s.target.activeOperation && s.target.resourceState == RsDeleted)))
            && (a.state == NoActionNeeded <==>
                  s.state != WorkDead || (fits && s.target.activeOperation)
                  || (rests && s.activeEquivalent && (s.kind == WakeDependents || s.registered)))
  {
  }

  // -------------------------------------------------------------------- the calls

  /** No row of the kind waits or is being worked on for the aggregate. */
  predicate NobodyWorks(d: Desk, kind: WorkKind, aggregate: Aggregate) {
    forall id :: id in d.work && d.work[id].kind == kind && d.work[id].aggregate == aggregate ==> d.work[id].state in {WorkCompleted, WorkDead}
  }

  /** The operation exists, goes on, and its backend still owes an answer. */
  predicate AwaitsBackend(d: Desk, oid: OperationID) {
    && oid in d.operations && oid in d.executions
    && !Over(d.operations[oid].state) && Outstanding(d.executions[oid].summary)
  }

  /** The resource exists, is not deleted, and no operation is in progress on it. */
  predicate Rests(d: Desk, rid: ResourceID) {
    rid in d.resources && d.resources[rid].state != RsDeleted && !d.resources[rid].activeOperation
  }

  predicate WellFormed(q: Call) {
    "" !in {q.actor, q.actorKind} && !Blank(q.key) && |q.key| <= 200 && !Blank(q.requestID)
  }

  /** What the dead row was for is still outstanding, and no other row sees to it. */
  predicate StillNeeded(d: Desk, w: Work, registered: bool) {
    match w.kind
    case Drive =>
      && w.aggregate.OfOperation? && w.aggregate.operationID in d.operations && registered
      && !Over(d.operations[w.aggregate.operationID].state)
      && d.operations[w.aggregate.operationID].resourceID in d.resources && NobodyWorks(d, Drive, w.aggregate)
    case Dispatch =>
      && w.aggregate.OfOperation? && AwaitsBackend(d, w.aggregate.operationID) && registered
      && w.attempt == d.executions[w.aggregate.operationID].currentAttempt && NobodyWorks(d, Observe, w.aggregate)
    case Observe =>
      && w.aggregate.OfOperation? && AwaitsBackend(d, w.aggregate.operationID) && registered
      && 0 < w.sequence && w.sequence + 1 == d.executions[w.aggregate.operationID].nextObservation && NobodyWorks(d, Observe, w.aggregate)
    case PassiveObserve =>
      w.aggregate.OfResource? && Rests(d, w.aggregate.resourceID) && registered && NobodyWorks(d, PassiveObserve, w.aggregate)
    case WakeDependents =>
      w.aggregate.OfResource? && Rests(d, w.aggregate.resourceID) && NobodyWorks(d, WakeDependents, w.aggregate)
  }

  predicate TargetAllows(d: Desk, q: Call) {
    match q.target
    case ObserveOperation(oid) => AwaitsBackend(d, oid) && q.registered && NobodyWorks(d, Observe, OfOperation(oid))
    case ObserveResource(rid) => Rests(d, rid) && q.registered && NobodyWorks(d, PassiveObserve, OfResource(rid))
    case RecoverWork(wid) => wid in d.work && d.work[wid].state == WorkDead && StillNeeded(d, d.work[wid], q.registered)
  }

  lemma NobodyIsActive(d: Desk, kind: WorkKind, aggregate: Aggregate)
    ensures HasActive(d, kind, aggregate) <==> !NobodyWorks(d, kind, aggregate)
  {
  }

  lemma QueueTakes(d: Desk, w: Work)
    ensures Enqueue(d, w).Ok? <==> w.id in d.work || NobodyWorks(d, w.kind, w.aggregate)
  {
    NobodyIsActive(d, w.kind, w.aggregate);
  }

  lemma ObservationIsScheduled(d: Desk, oid: OperationID)
    requires oid in d.executions && NobodyWorks(d, Observe, OfOperation(oid))
    ensures ScheduleObserve(d, oid).Ok?
  {
    hide Enqueue, NobodyWorks;
    var x := d.executions[oid];
    var w := Work(ObserveID(oid, NextSequence(x)), Observe, OfOperation(oid), 0, NextSequence(x), WorkPending);
    var taken := d.(executions := d.executions[oid := x.(nextObservation := NextSequence(x) + 1)]);
    SameQueue(d, taken, Observe, OfOperation(oid));
    QueueTakes(taken, w);
  }

  lemma SameQueue(d: Desk, n: Desk, kind: WorkKind, aggregate: Aggregate)
    requires n.work == d.work
    ensures NobodyWorks(n, kind, aggregate) <==> NobodyWorks(d, kind, aggregate)
  {
  }

  lemma OwnIsScheduled(d: Desk, actionID: string, kind: WorkKind, aggregate: Aggregate, sequence: nat)
    requires NobodyWorks(d, kind, aggregate)
    ensures ScheduleOwn(d, actionID, kind, aggregate, sequence).Ok?
  {
    hide Enqueue, NobodyWorks;
    QueueTakes(d, Work(OperatorID(actionID, kind), kind, aggregate, 0, sequence, WorkPending));
  }

  lemma ObserveOperationExactly(d: Desk, q: Call, oid: OperationID)
    ensures ApplyObserveOperation(d, q, oid).Ok? <==>
              q.current && AwaitsBackend(d, oid) && q.registered && NobodyWorks(d, Observe, OfOperation(oid))
  {
    hide HasActive, NobodyWorks, ScheduleObserve, PlanOperationObserve, Outstanding, Over;
    NobodyIsActive(d, Observe, OfOperation(oid));
    if oid in d.operations && oid in d.executions {
      var o := d.operations[oid];
      OperationAssessment(ObserveSnapshot(o.state, SummaryOf(d, oid), HasActive(d, Observe, OfOperation(oid)), o.dependencyBlocked, q.registered));
      if NobodyWorks(d, Observe, OfOperation(oid)) {
        ObservationIsScheduled(d, oid);
      }
    }
  }

  lemma ObserveResourceExactly(d: Desk, q: Call, rid: ResourceID)
    ensures ApplyObserveResource(d, q, rid).Ok? <==>
              q.current && Rests(d, rid) && q.registered && NobodyWorks(d, PassiveObserve, OfResource(rid))
  {
    hide HasActive, NobodyWorks, ScheduleOwn, PlanResourcePassiveObserve;
    NobodyIsActive(d, PassiveObserve, OfResource(rid));
    if rid in d.resources {
      var r := d.resources[rid];
      ResourceAssessment(PassiveSnapshot(r.state, r.activeOperation, HasActive(d, PassiveObserve, OfResource(rid)), q.registered));
      if NobodyWorks(d, PassiveObserve, OfResource(rid)) {
        OwnIsScheduled(d, q.actionID, PassiveObserve, OfResource(rid), if r.version == 0 then 1 else r.version);
      }
    }
  }

  lemma RecoverExactly(d: Desk, q: Call, wid: WorkID)
    ensures ApplyRecover(d, q, wid).Ok? <==>
              q.current && wid in d.work && d.work[wid].state == WorkDead && StillNeeded(d, d.work[wid], q.registered)
  {
    hide HasActive, NobodyWorks, Replace, PlanDeadWorkRecovery, Outstanding, Over;
    if wid in d.work && d.work[wid].state == WorkDead {
      var w := d.work[wid];
      NobodyIsActive(d, EquivalentKind(w.kind), w.aggregate);
      NobodyIsActive(d, w.kind, w.aggregate);
      var snapshot := DeadSnapshot(d, w, q.registered);
      if snapshot.Ok? {
        if w.aggregate.OfOperation? {
          DeadOperationAssessment(snapshot.value);
        } else {
          DeadResourceAssessment(snapshot.value);
        }
        if StillNeeded(d, w, q.registered) {
          ReplacementIsScheduled(d, q, w);
        }
      }
    }
  }

  lemma ReplacementIsScheduled(d: Desk, q: Call, w: Work)
    requires StillNeeded(d, w, q.registered)
    ensures Replace(d, q, w).Ok?
  {
    hide NobodyWorks, ScheduleObserve, ScheduleOwn, Outstanding, Over;
    match w.kind
    case Dispatch => ObservationIsScheduled(d, w.aggregate.operationID);
    case Observe => ObservationIsScheduled(d, w.aggregate.operationID);
    case Drive => OwnIsScheduled(d, q.actionID, Drive, w.aggregate, 0);
    case WakeDependents => OwnIsScheduled(d, q.actionID, WakeDependents, w.aggregate, 0);
    case PassiveObserve =>
      var version := d.resources[w.aggregate.resourceID].version;
      OwnIsScheduled(d, q.actionID, PassiveObserve, w.aggregate, if version == 0 then 1 else version);
  }

  /** A call is admitted exactly when it is complete, authorized and prepared against the
      current diagnostic, under a free key and audit identity, and its target still needs
      what it asks for. */
  lemma CallAdmittedExactly(d: Desk, q: Call)
    requires Sound(d)
    ensures Admits(d, q) <==>
              && WellFormed(q) && q.authorized && q.current
              && ScopedKey(q.actor, q.key) !in d.keys && q.actionID !in d.actions && TargetAllows(d, q)
  {
    hide Sound, ApplyObserveOperation, ApplyObserveResource, ApplyRecover, TargetAllows, Blank;
    TargetAllowsExactly(d, q);
    if Apply(d, q).Ok? && q.actionID !in d.actions {
      ApplyIsFresh(d, q);
      ScheduledIsNew(d, Apply(d, q).value.0, Apply(d, q).value.1);
    }
    if Apply(d, q).Ok? {
      ApplyKeepsAudit(d, q);
    }
  }

  lemma TargetAllowsExactly(d: Desk, q: Call)
    ensures Apply(d, q).Ok? <==> q.current && TargetAllows(d, q)
  {
    hide ApplyObserveOperation, ApplyObserveResource, ApplyRecover, AwaitsBackend, Rests, NobodyWorks, StillNeeded;
    match q.target
    case ObserveOperation(oid) => ObserveOperationExactly(d, q, oid);
    case ObserveResource(rid) => ObserveResourceExactly(d, q, rid);
    case RecoverWork(wid) => RecoverExactly(d, q, wid);
  }

  function AtLeastOne(n: nat): nat {
    if n < 1 then 1 else n
  }

  /** The row that takes a dead one's place: an observation for what asks the backend,
      otherwise the same kind of work again. */
  function Replacement(d: Desk, q: Call, w: Work): Work
    requires StillNeeded(d, w, q.registered)
  {
    match w.kind
    case Dispatch | Observe => NextObservation(d, w.aggregate.operationID)
    case PassiveObserve => Work(OperatorID(q.actionID, PassiveObserve), PassiveObserve, w.aggregate, 0,
                                AtLeastOne(d.resources[w.aggregate.resourceID].version), WorkPending)
    case _ => Work(OperatorID(q.actionID, w.kind), w.kind, w.aggregate, 0, 0, WorkPending)
  }

  function NextObservation(d: Desk, oid: OperationID): Work
    requires oid in d.executions
  {
    var n := AtLeastOne(d.executions[oid].nextObservation);
    Work(ObserveID(oid, n), Observe, OfOperation(oid), 0, n, WorkPending)
  }

  function RowFor(d: Desk, q: Call): Work
    requires TargetAllows(d, q)
  {
    match q.target
    case ObserveOperation(oid) => NextObservation(d, oid)
    case ObserveResource(rid) =>
      Work(OperatorID(q.actionID, PassiveObserve), PassiveObserve, OfResource(rid), 0, AtLeastOne(d.resources[rid].version), WorkPending)
    case RecoverWork(wid) => Replacement(d, q, d.work[wid])
  }

  /** The row of work that an admitted call adds. */
  lemma AdmittedCallCreates(d: Desk, q: Call)
    requires Sound(d) && Admits(d, q)
    ensures TargetAllows(d, q)
    ensures var a := Mutate(d, q).value;
            a.created == RowFor(d, q).id && a.desk.work == d.work[a.created := RowFor(d, q)]
  {
    hide Sound, TargetAllows, RowFor, Apply;
    CallAdmittedExactly(d, q);
    ApplyIsFresh(d, q);
    ScheduledIsNew(d, Apply(d, q).value.0, Apply(d, q).value.1);
    AppliedRow(d, q);
  }

  lemma AppliedRow(d: Desk, q: Call)
    requires TargetAllows(d, q) && Apply(d, q).Ok? && Apply(d, q).value.1 !in d.work
    ensures Apply(d, q).value.1 == RowFor(d, q).id
    ensures Apply(d, q).value.0.work == d.work[RowFor(d, q).id := RowFor(d, q)]
  {
    hide PlanOperationObserve, PlanResourcePassiveObserve, PlanDeadWorkRecovery, DeadSnapshot, HasActive, NobodyWorks, Outstanding, Over,
         Replacement, Replace;
    if q.target.RecoverWork? {
      ReplacedRow(d, q, d.work[q.target.workID]);
    }
  }

  lemma ReplacedRow(d: Desk, q: Call, w: Work)
    requires StillNeeded(d, w, q.registered)
    ensures Replace(d, q, w).Ok? && Replace(d, q, w).value.1 !in d.work ==>
              && Replace(d, q, w).value.1 == Replacement(d, q, w).id
              && Replace(d, q, w).value.0.work == d.work[Replacement(d, q, w).id := Replacement(d, q, w)]
  {
    hide NobodyWorks, Outstanding, Over, ScheduleObserve, ScheduleOwn, NextObservation;
    match w.kind
    case Dispatch => ObservedRow(d, w.aggregate.operationID);
    case Observe => ObservedRow(d, w.aggregate.operationID);
    case PassiveObserve => OwnRow(d, q.actionID, PassiveObserve, w.aggregate, AtLeastOne(d.resources[w.aggregate.resourceID].version));
    case _ => OwnRow(d, q.actionID, w.kind, w.aggregate, 0);
  }

  lemma ObservedRow(d: Desk, oid: OperationID)
    requires oid in d.executions
    ensures ScheduleObserve(d, oid).Ok? && ScheduleObserve(d, oid).value.1 !in d.work ==>
              && ScheduleObserve(d, oid).value.1 == NextObservation(d, oid).id
              && ScheduleObserve(d, oid).value.0.work == d.work[NextObservation(d, oid).id := NextObservation(d, oid)]
  {
    hide HasActive;
  }

  lemma OwnRow(d: Desk, actionID: string, kind: WorkKind, aggregate: Aggregate, sequence: nat)
    ensures var w, r := Work(OperatorID(actionID, kind), kind, aggregate, 0, sequence, WorkPending), ScheduleOwn(d, actionID, kind, aggregate, sequence);
            r.Ok? && r.value.1 !in d.work ==> r.value.1 == w.id && r.value.0.work == d.work[w.id := w]
  {
    hide HasActive;
  }

  /** The refusals that come before any target is looked at, and the bound key's. */
  lemma CallRefused(d: Desk, q: Call)
    ensures Mutate(d, q) == Err(MalformedCall) <==> !WellFormed(q)
    ensures Mutate(d, q) == Err(NotAuthorized) <==> WellFormed(q) && !q.authorized
    ensures Mutate(d, q) == Err(KeyConflict) <==>
              WellFormed(q) && q.authorized && ScopedKey(q.actor, q.key) in d.keys && d.keys[ScopedKey(q.actor, q.key)].fingerprint != q.target
  {
    hide Blank, Apply;
    ApplyErrs(d, q);
  }

  lemma ApplyErrs(d: Desk, q: Call)
    ensures Apply(d, q).Err? ==> Apply(d, q).error !in {MalformedCall, NotAuthorized, KeyConflict}
  {
    hide PlanOperationObserve, PlanResourcePassiveObserve, PlanDeadWorkRecovery, HasActive;
  }
}
