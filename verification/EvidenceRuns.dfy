/** The machine with its evidence taken from real readings: dispatches, losses,
    submission results and observations, as the worker turns them into records. */
module EvidenceRuns {
  import opened Admission
  import opened AdmissionFacts
  import opened Basics
  import opened ControlPlane
  import opened Convergence
  import opened ConvergenceFacts
  import opened Dependencies
  import opened Domain
  import opened Drive
  import opened FinishFacts
  import opened Finishing
  import opened Keys
  import opened Lifecycle
  import opened Outputs
  import opened Provisioning
  import opened References
  import opened Store
  import opened Submission
  import opened Testimony
  import SubmissionRuns

  // -------------------------------------------------------------------- the machine

  /** `Requests` is any admission, drive or passive observation. A reading carries the
      worker's clock, which dates what the backend leaves undated, and the message a
      rejection of the outputs would store. */
  datatype Deed =
    | Requests(step: Step)
    | Claims(operationID: OperationID, mapping: string)
    | GivesBack(operationID: OperationID)
    | Loses(operationID: OperationID, why: Option<ExecutionFailure>)
    | Submits(operationID: OperationID, submission: Observation, error: Option<string>, detail: string, clock: Time, rejection: string)
    | Looks(operationID: OperationID, observation: Observation, clock: Time, rejection: string)

  function DatedAt(o: Observation, clock: Time): Time {
    if o.observedAt != ZERO_TIME then o.observedAt else clock
  }

  function BoundMapping(x: Execution, mapping: string): Execution {
    if x.outputs.mappingRef == "" then x.(outputs := x.outputs.(mappingRef := mapping)) else x
  }

  function SubmissionStep(x: Execution, s: Observation, error: Option<string>, detail: string, clock: Time, rejection: string): Step {
    var at := DatedAt(s, clock);
    var r := InterpretSubmission(x, SubmissionRuns.NewAttempt(x), s, error, detail, at);
    if r.finish.None? then DoRecord(Rescheduled(r.execution))
    else DoFinish(r.execution, r.finish.value, s.outputs, rejection, at)
  }

  predicate ShowsSuccess(o: Observation) {
    o.correlation.CorrFound? && o.execution.Some? && o.execution.value.state.BackendSucceeded?
  }

  /** A recovery of outputs notes every observation; the execution it recovers is over. */
  function RecoveryNoted(x: Execution, o: Observation, at: Time): Execution {
    x.(lastObservation := Some(o), lastObservedAt := at, correlation := o.correlation,
       lastProviderObservedAt := AcceptProvider(x.lastProviderObservedAt, o.observedAt))
  }

  function RecoveryFinishing(x: Execution, o: Observation, at: Time): Execution {
    x.(lastObservation := Some(o), lastObservedAt := at, correlation := o.correlation,
       handle := if o.execution.Some? && o.execution.value.handle.Some? then o.execution.value.handle else x.handle,
       lastProviderObservedAt := if o.observedAt != ZERO_TIME then o.observedAt else x.lastProviderObservedAt)
  }

  /** Backend success is recorded and only the outputs are awaited. */
  function PendingStep(x: Execution, o: Observation, at: Time, rejection: string): Option<Step> {
    var finish := Finish(true, ObservationSucceeded(), "", o.facts);
    if !ShowsSuccess(o) then
      if x.IsOutputRecovery() then Some(DoRecord(Rescheduled(RecoveryNoted(x, o, at)))) else None
    else if x.IsOutputRecovery() then Some(DoFinish(RecoveryFinishing(x, o, at), finish, o.outputs, rejection, at))
    else Some(DoFinish(x, finish, o.outputs, rejection, x.lastObservedAt))
  }

  /** What an observation amounts to: a finish, another attempt, or another look. */
  function ReadingStep(r: Reading<ObservationOutcome>, o: Observation, at: Time, rejection: string): Step {
    if r.finish.Some? then DoFinish(r.execution, r.finish.value, o.outputs, rejection, at)
    else if r.outcome.Retry? then DoRecord(r.execution)
    else DoRecord(Rescheduled(r.execution))
  }

  function LookStep(x: Execution, o: Observation, clock: Time, rejection: string): Option<Step> {
    var at := DatedAt(o, clock);
    if x.state.AttemptSucceeded? && x.outputs.resolution.ResolutionPending? then PendingStep(x, o, at, rejection)
    else if x.currentAttempt == 0 then None
    else
      var read := InterpretObservation(x, SubmissionRuns.NewAttempt(x), o, at);
      if read.Err? then None else Some(ReadingStep(read.value, o, at, rejection))
  }

  /** The transaction a deed amounts to; none when it does not apply. */
  function StepOf(s: Records, d: Deed): Option<Step> {
    hide SubmissionStep, LookStep;
    match d
    case Requests(step) => if step.DoRecord? || step.DoFinish? then None else Some(step)
    case Claims(oid, mapping) =>
      if oid !in s.executions then None
      else
        var x := s.executions[oid];
        if x.state.AttemptPending? && x.currentAttempt != 0 && !x.IsOutputRecovery()
        then Some(DoRecord(BoundMapping(x, mapping).(state := AttemptDispatching))) else None
    case GivesBack(oid) =>
      if oid in s.executions && s.executions[oid].state.AttemptDispatching?
      then Some(DoRecord(s.executions[oid].(state := AttemptPending))) else None
    case Loses(oid, why) =>
      if oid !in s.executions || !s.executions[oid].state.AttemptDispatching? then None
      else
        var x := s.executions[oid];
        Some(DoRecord(Rescheduled(x.(state := AttemptUnknown, correlation := CorrUnknown,
                                     lastFailure := if why.Some? then why else x.lastFailure))))
    case Submits(oid, submission, error, detail, clock, rejection) =>
      if oid in s.executions && s.executions[oid].state.AttemptDispatching?
      then Some(SubmissionStep(s.executions[oid], submission, error, detail, clock, rejection)) else None
    case Looks(oid, o, clock, rejection) =>
      if oid in s.executions then LookStep(s.executions[oid], o, clock, rejection) else None
  }

  ghost function Done(s: Records, c: Catalog, d: Deed): Records {
    var step := StepOf(s, d);
    if step.Some? then Next(s, c, step.value) else s
  }

  ghost function Perform(s: Records, c: Catalog, ds: seq<Deed>): Records
    decreases |ds|
  {
    hide Done;
    if ds == [] then s else Perform(Done(s, c, ds[0]), c, ds[1..])
  }

  /** What the readings of a deed must be for later readers to accept their outcome: the
      clock runs, failed executions say why, and a submission result is not dated before
      the newest recorded evidence. */
  predicate Reliable(s: Records, d: Deed) {
    match d
    case Submits(oid, submission, _, _, clock, _) =>
      && clock != ZERO_TIME && Documented(submission)
      && (oid in s.executions ==> Timely(s.executions[oid], DatedAt(submission, clock)))
    case Looks(_, o, clock, _) => clock != ZERO_TIME && Documented(o)
    case _ => true
  }

  ghost predicate AllReliable(s: Records, c: Catalog, ds: seq<Deed>)
    decreases |ds|
  {
    hide Done, Reliable;
    ds != [] ==> Reliable(s, ds[0]) && AllReliable(Done(s, c, ds[0]), c, ds[1..])
  }

  // --------------------------------------------------------------- what records tell

  /** Backend success is known and only the outputs are outstanding. */
  predicate AwaitsOutputs(x: Execution) {
    && x.state.AttemptSucceeded? && x.outputs.resolution.ResolutionPending? && x.currentAttempt != 0
    && x.lastObservedAt != ZERO_TIME
    && TerminalObservation(x).Some? && DatesAgree(x, TerminalObservation(x).value)
    && TerminalObservation(x).value.execution.value.state.BackendSucceeded?
  }

  /** What an operation's execution says at every stage. */
  predicate Tale(o: Operation, x: Execution) {
    if o.IsTerminal() then NeverAsked(x) || EvidenceConsistent(x, o)
    else if x.IsOutputRecovery() then x.state.AttemptSucceeded? && x.outputs.resolution.ResolutionPending? && x.currentAttempt == 0
    else if x.IsSettled() then AwaitsOutputs(x)
    else x.currentAttempt == 0 ==> NeverAsked(x) && x.state.AttemptPending?
  }

  predicate AllTold(s: Records) {
    forall oid :: oid in s.operations ==> oid in s.executions && Tale(s.operations[oid], s.executions[oid])
  }

  /** At most one operation and its execution changed. */
  ghost predicate SameButFor(s: Records, n: Records, oid: OperationID) {
    && (forall p :: p != oid ==> (p in n.operations <==> p in s.operations) && (p in s.operations ==> n.operations[p] == s.operations[p]))
    && (forall p :: p != oid ==> (p in s.executions ==> p in n.executions && n.executions[p] == s.executions[p]))
  }

  lemma OneTold(s: Records, n: Records, oid: OperationID)
    requires AllTold(s) && SameButFor(s, n, oid)
    requires oid in n.operations ==> oid in n.executions && Tale(n.operations[oid], n.executions[oid])
    ensures AllTold(n)
  {
    hide Tale;
  }

  lemma SameTold(s: Records, n: Records)
    requires AllTold(s) && n.operations == s.operations && n.executions == s.executions
    ensures AllTold(n)
  {
    hide Tale;
  }

  predicate IsDriveOf(d: Deed, oid: OperationID) {
    d.Requests? && d.step.DoDrive? && d.step.operationID == oid
  }

  /** Only this operation moved, or joined; if the deed ended it, it did so without any
      evidence exactly when the deed was its drive. */
  ghost predicate Moved(s: Records, n: Records, d: Deed, oid: OperationID) {
    && SameButFor(s, n, oid)
    && (oid in s.operations ==> !s.operations[oid].IsTerminal())
    && oid in n.operations && oid in n.executions
    && (n.operations[oid].IsTerminal() ==> (NeverAsked(n.executions[oid]) <==> IsDriveOf(d, oid)))
  }

  ghost predicate AtMostOneMoved(s: Records, n: Records, d: Deed) {
    (n.operations == s.operations && n.executions == s.executions) || exists oid :: Moved(s, n, d, oid)
  }

  // ---------------------------------------------------------------------- admissions

  lemma PersistTells(s: Records, d: Deed, rec: Record, t: Transition, x: Execution, desired: EdgeTable, q: Caller, kind: string, updated: bool)
    requires AllTold(s) && Persist(s, rec, t, x, desired, q, kind, updated).Ok?
    requires Tale(t.operation, x) && t.operation.state.OpPending?
    ensures AllTold(Persist(s, rec, t, x, desired, q, kind, updated).value.records)
    ensures AtMostOneMoved(s, Persist(s, rec, t, x, desired, q, kind, updated).value.records, d)
  {
    hide Tale;
    assert Moved(s, Persist(s, rec, t, x, desired, q, kind, updated).value.records, d, t.operation.id);
    OneTold(s, Persist(s, rec, t, x, desired, q, kind, updated).value.records, t.operation.id);
  }

  lemma NewTale(rec: Record, o: Operation)
    requires o.state.OpPending?
    ensures Tale(o, NewExecution(rec, o))
  {
  }

  lemma RetryTale(rec: Record, failed: Operation, x: Execution, o: Operation, mapping: Option<string>)
    requires o.state.OpPending?
    ensures Tale(o, RetryExecution(rec, failed, x, o, mapping))
  {
  }

  lemma CreateTells(s: Records, c: Catalog, d: Deed, q: CreateRequest, n: Records)
    requires Invariant(s, c) && AllTold(s) && AdmitCreate(s, c, q).Ok? && AdmitCreate(s, c, q).value.records == n
    ensures AllTold(n) && AtMostOneMoved(s, n, d)
  {
    hide Invariant, AdmitNew, ShapeAccepts, Replay, CanonicalOf, Addable, RowsAdmitted, Persist, AllTold, Tale, NewExecution, Moved;
    if Replay(s, KeyOf(q.caller), q.caller.fingerprint, CreateKind()).value.None? {
      var edges := CanonicalOf(q.references).value;
      var rec, t := AdmitNewAddable(s, c, q, edges);
      NewTale(rec, t.operation);
      PersistTells(s, d, rec, t, NewExecution(rec, t.operation), DesiredAfter(s, rec, Some(edges)), q.caller, CreateKind(), false);
    }
  }

  lemma ExistingTells(s: Records, c: Catalog, d: Deed, q: ExistingRequest, n: Records)
    requires Invariant(s, c) && AllTold(s) && AdmitExisting(s, c, q).Ok? && AdmitExisting(s, c, q).value.records == n
    ensures AllTold(n) && AtMostOneMoved(s, n, d)
  {
    hide Invariant, AdmitDelete, AdmitUpdate, Replay, CanonicalOf, Addable, UpdateReferencesError, EffectiveDesired, Persist, AllTold, Tale,
         NewExecution, Moved;
    if Replay(s, KeyOf(q.caller), q.caller.fingerprint, if q.change.DeleteIt? then DeleteKind() else UpdateKind()).value.None? {
      if q.change.DeleteIt? {
        var t := DeleteTransition(s, c, q);
        var rec := s.resources[q.id];
        NewTale(rec, t.operation);
        PersistTells(s, d, rec, t, NewExecution(rec, t.operation), DesiredAfter(s, rec, None), q.caller, DeleteKind(), false);
      } else {
        var rec, t := UpdateTransition(s, c, q);
        NewTale(rec, t.operation);
        PersistTells(s, d, rec, t, NewExecution(rec, t.operation), DesiredAfter(s, rec, UpdatedRows(q, EffectiveDesired(s, c, q))),
                     q.caller, UpdateKind(), true);
      }
    }
  }

  lemma RetryTells(s: Records, c: Catalog, d: Deed, q: RetryRequest, n: Records)
    requires Invariant(s, c) && AllTold(s) && AdmitRetry(s, c, q).Ok? && AdmitRetry(s, c, q).value.records == n
    ensures AllTold(n) && AtMostOneMoved(s, n, d)
  {
    hide Invariant, AdmitRetryOf, Replay, Addable, RetryExecution, Persist, AllTold, Tale, Moved;
    if Replay(s, KeyOf(q.caller), q.caller.fingerprint, RetryKind()).value.None? {
      var t := RetryTransition(s, c, q);
      var failed := s.operations[q.source];
      var rec := s.resources[failed.resourceID];
      var x := s.executions[failed.id];
      RetryTale(rec, failed, x, t.operation, q.mapping);
      PersistTells(s, d, rec, t, RetryExecution(rec, failed, x, t.operation, q.mapping), DesiredAfter(s, rec, None), q.caller, RetryKind(), false);
    }
  }

  // -------------------------------------------------------------------------- driving

  lemma AdvanceTells(s: Records, id: ResourceID, o: Operation, x: Execution, next: Phase, gated: bool, at: Time, n: Records)
    requires id in s.resources && AdvanceThrough(s, id, o, x, next, gated, at) == Ok(n) && !o.IsTerminal() && Tale(o, x)
    ensures SameButFor(s, n, o.id)
    ensures o.id in n.operations && o.id in n.executions
    ensures !n.operations[o.id].IsTerminal() && Tale(n.operations[o.id], n.executions[o.id])
  {
    hide SetDependencyCondition, Advance, InternalEventID, TransitionLabel, Released, Tale;
    var rec := s.resources[id];
    var eventID := InternalEventID(o.id, TransitionLabel(next));
    AdvancedIdentity(rec.resource, rec.status, o, next, eventID, at);
    AdvancedUnderWay(rec.resource, rec.status, o, next, eventID, at);
    ReleasedTale(o, Advance(rec.resource, rec.status, o, next, eventID, at).value.operation, x, next);
  }

  lemma AdvancedUnderWay(r: Resource, s: ResourceStatus, o: Operation, next: Phase, eventID: EventID, at: Time)
    requires Advance(r, s, o, next, eventID, at).Ok?
    ensures !Advance(r, s, o, next, eventID, at).value.operation.IsTerminal()
  {
    hide SetCondition, StatusOf, EventOf;
  }

  lemma ReleasedTale(o: Operation, moved: Operation, x: Execution, next: Phase)
    requires Released(x, next).Ok? && !o.IsTerminal() && !moved.IsTerminal() && Tale(o, x)
    ensures Tale(moved, Released(x, next).value)
  {
    hide TerminalObservation;
  }

  lemma GateTells(s: Records, id: ResourceID, o: Operation, x: Execution, kind: DependencyClass, at: Time, n: Records)
    requires id in s.resources && SettleGateBlock(s, id, o, x, kind, at) == Ok(n)
    requires o.id in s.operations && s.operations[o.id] == o && o.id in s.executions && s.executions[o.id] == x
    requires !o.IsTerminal() && NeverAsked(x) && Tale(o, x)
    ensures SameButFor(s, n, o.id) && StillNeverAsked(n, o.id)
    ensures o.id in n.operations && Tale(n.operations[o.id], n.executions[o.id])
  {
    hide SetDependencyCondition, GateFailure, BuildFinishEvidence, Tale, StillNeverAsked;
    GateAsksNobody(s, id, o, x, kind, at);
    var noted := SetDependencyCondition(s.resources[id].status, CFalse, Known(BlockReason(kind)), "", at).value;
    if !kind.DependencyWaiting? {
      FinishedIdentity(o, s.resources[id].resource, noted, GateFailure(kind), at);
      FinishedIsTerminal(o, s.resources[id].resource, noted, GateFailure(kind), at);
      GateTale(n.operations[o.id], n.executions[o.id]);
    }
  }

  lemma GateTale(o: Operation, x: Execution)
    requires o.IsTerminal() && NeverAsked(x)
    ensures Tale(o, x)
  {
  }

  lemma FinishedIsTerminal(o: Operation, r: Resource, s: ResourceStatus, finish: Finish, at: Time)
    requires BuildFinishEvidence(o, r, s, finish, at).Ok?
    ensures BuildFinishEvidence(o, r, s, finish, at).value.operation.IsTerminal()
  {
    EngineTime(o, r, s, finish, at);
    EngineOutcomeState(o, r, s, finish, at);
  }

  /** A drive that ends its operation leaves it without any evidence; one that does not,
      leaves it under way. */
  lemma DriveTells(s: Records, c: Catalog, oid: OperationID, n: Records)
    requires Invariant(s, c) && AllTold(s) && DriveOperation(s, c, oid) == Ok(n)
    ensures AllTold(n) && SameButFor(s, n, oid)
    ensures oid in n.operations && oid in n.executions
    ensures n.operations[oid].IsTerminal() ==> NeverAsked(n.executions[oid])
  {
    hide Invariant, Books, AdvanceThrough, SettleGateBlock, EvaluateDependencies, Tale, AllTold, SameButFor, NeverAsked, CellOk, ContextFits;
    InvariantParts(s, c);
    WorkInHand(s, c, oid);
    var o, x := s.operations[oid], s.executions[oid];
    assert Tale(o, x) by { ToldOf(s, oid); }
    var id, next, at := o.resourceID, NextPhase(o).value, o.phaseChangedAt + 1;
    if next.Applying? && !o.capability.Delete? && x.currentAttempt == 0 && !x.IsOutputRecovery() {
      var gate := EvaluateDependencies(s, c, id);
      if gate.NotGated? {
        AdvanceTells(s, id, o, x, next, false, at, n);
      } else if gate.evaluation.kind.DependencyReady? {
        AdvanceTells(s, id, o, x, next, true, at, n);
      } else {
        GatedIsUnasked(o, x);
        GateTells(s, id, o, x, gate.evaluation.kind, at, n);
        assert NeverAsked(n.executions[oid]);
      }
    } else {
      AdvanceTells(s, id, o, x, next, false, at, n);
    }
    OneTold(s, n, oid);
  }

  lemma ToldOf(s: Records, oid: OperationID)
    requires AllTold(s) && oid in s.operations
    ensures oid in s.executions && Tale(s.operations[oid], s.executions[oid])
  {
  }

  lemma GatedIsUnasked(o: Operation, x: Execution)
    requires !o.IsTerminal() && Tale(o, x) && x.currentAttempt == 0 && !x.IsOutputRecovery()
    ensures NeverAsked(x)
  {
  }

  // ------------------------------------------------------------------------- finishing

  lemma FailedTells(s: Records, id: ResourceID, o: Operation, x: Execution, finish: Finish, at: Time, n: Records)
    requires id in s.resources && FinishFailed(s, id, o, x, finish, at) == Ok(n)
    ensures SameButFor(s, n, o.id)
  {
    hide BuildFinishEvidence, DriftAfter, Aligned, AlignedExecution;
    FinishedIdentity(o, s.resources[id].resource, s.resources[id].status, finish, Aligned(at, s.resources[id]));
  }

  lemma RejectedTells(s: Records, id: ResourceID, o: Operation, x: Execution, detail: string, at: Time, n: Records)
    requires id in s.resources && FinishRejected(s, id, o, x, detail, at) == Ok(n)
    ensures SameButFor(s, n, o.id)
  {
    hide BuildFinishEvidence;
    FinishedIdentity(o, s.resources[id].resource, s.resources[id].status, Finish(false, RejectionReason(), detail, NO_FACTS), at);
  }

  lemma SucceededTells(s: Records, id: ResourceID, o: Operation, x: Execution, finish: Finish, snapshot: Option<ResourceOutputs>, at: Time, n: Records)
    requires id in s.resources && FinishSucceeded(s, id, o, x, finish, snapshot, at) == Ok(n)
    ensures SameButFor(s, n, o.id)
  {
    hide BuildFinishEvidence, DriftAfter, Aligned, AlignedExecution, Publish, RowsAfterSuccess;
    FinishedIdentity(o, s.resources[id].resource, s.resources[id].status, finish, Aligned(at, s.resources[id]));
  }

  lemma DeferredTale(o: Operation, x: Execution, finish: Finish, at: Time)
    requires !o.IsTerminal() && finish.succeeded && !o.capability.Delete? && Supports(x, o.capability, finish, at)
    requires if x.IsOutputRecovery() then x.currentAttempt == 0 else x.currentAttempt != 0
    ensures Tale(o, OutputsDeferred(x))
  {
  }

  lemma ConsistentTale(o: Operation, x: Execution)
    requires o.IsTerminal() && EvidenceConsistent(x, o)
    ensures Tale(o, x) && !NeverAsked(x)
  {
  }

  lemma DeletesBringNothing(contract: Option<OutputContract>, capability: Capability, evidence: Option<OutputEvidence>, target: nat, at: Time)
    requires capability.Delete?
    ensures PlanTerminalOutputs(contract, capability, evidence, target, at) == Some(PlanNone)
  {
  }

  /** A finish whose record supports it ends the operation with consistent evidence, or
      leaves it waiting for its outputs. */
  lemma FinishTells(s: Records, c: Catalog, o: Operation, x: Execution, finish: Finish, evidence: Option<OutputEvidence>, detail: string,
                    at: Time, n: Records)
    requires Invariant(s, c) && AllTold(s) && FinishOperation(s, c, x, finish, evidence, detail, at) == Ok(n)
    requires x.intent.operationID == o.id && o.id in s.operations && s.operations[o.id] == o && x.intent.capability == o.capability
    requires Supports(x, o.capability, finish, at)
    requires if x.IsOutputRecovery() then x.currentAttempt == 0 else x.currentAttempt != 0
    ensures AllTold(n) && SameButFor(s, n, o.id) && o.id in n.operations && o.id in n.executions
    ensures n.operations[o.id].IsTerminal() ==> !NeverAsked(n.executions[o.id])
  {
    hide Invariant, FinishFailed, FinishRejected, FinishSucceeded, PlanTerminalOutputs, EvidenceRepresentable, MappingContradicts,
         Tale, AllTold, Supports, OutputsDeferred, NeverAsked, EvidenceConsistent;
    var id := o.resourceID;
    if !finish.succeeded {
      FailedTells(s, id, o, x, finish, at, n);
      FailedIsConsistent(s, id, o, x, finish, at, n);
      ConsistentTale(n.operations[o.id], n.executions[o.id]);
    } else {
      var contract := c[x.intent.typeRef].outputs;
      if o.capability.Delete? {
        DeletesBringNothing(contract, x.intent.capability, evidence, x.intent.targetGeneration, at);
      }
      var p := PlanTerminalOutputs(contract, x.intent.capability, evidence, x.intent.targetGeneration, at).value;
      match p
      case PlanDefer => DeferredTale(o, x, finish, at);
      case PlanReject(_) =>
        RejectedTells(s, id, o, x, detail, at, n);
        RejectedIsConsistent(s, id, o, x, detail, finish, at, n);
        ConsistentTale(n.operations[o.id], n.executions[o.id]);
      case PlanPublish(snapshot) =>
        SucceededTells(s, id, o, x, finish, Some(snapshot), at, n);
        SucceededIsConsistent(s, id, o, x, finish, Some(snapshot), at, n);
        ConsistentTale(n.operations[o.id], n.executions[o.id]);
      case PlanNone =>
        SucceededTells(s, id, o, x, finish, None, at, n);
        SucceededIsConsistent(s, id, o, x, finish, None, at, n);
        ConsistentTale(n.operations[o.id], n.executions[o.id]);
    }
    OneTold(s, n, o.id);
  }

  // ------------------------------------------------------------------------ the deeds

  lemma RecordTells(s: Records, d: Deed, x: Execution, n: Records)
    requires AllTold(s) && RecordEvidence(s, x) == Ok(n)
    requires x.intent.operationID in s.operations ==> Tale(s.operations[x.intent.operationID], x)
    ensures AllTold(n) && AtMostOneMoved(s, n, d)
  {
    hide Tale, NeverAsked;
    OneTold(s, n, x.intent.operationID);
    assert Moved(s, n, d, x.intent.operationID);
  }

  /** The execution in hand of an operation that is not over. */
  ghost predicate UnderWay(s: Records, oid: OperationID) {
    oid in s.operations && oid in s.executions && !s.operations[oid].IsTerminal()
  }

  lemma InHandOf(s: Records, c: Catalog, oid: OperationID)
    requires Invariant(s, c) && AllTold(s) && oid in s.executions
    ensures oid in s.operations && s.operations[oid].id == oid
    ensures s.executions[oid].intent.operationID == oid && s.executions[oid].intent.capability == s.operations[oid].capability
    ensures Tale(s.operations[oid], s.executions[oid])
  {
    hide Links, Bound, ResourceOk, Tale;
    assert OperationOk(s, oid);
  }

  lemma StaleWorkIsRefused(s: Records, c: Catalog, x: Execution, finish: Finish, evidence: Option<OutputEvidence>, detail: string, at: Time)
    requires x.intent.operationID in s.operations && s.operations[x.intent.operationID].IsTerminal()
    ensures RecordEvidence(s, x).Err? && FinishOperation(s, c, x, finish, evidence, detail, at).Err?
  {
    hide FinishFailed, FinishRejected, FinishSucceeded, PlanTerminalOutputs;
  }

  lemma NextOfRecord(s: Records, c: Catalog, x: Execution)
    ensures Next(s, c, DoRecord(x)) == if RecordEvidence(s, x).Ok? then RecordEvidence(s, x).value else s
  {
    hide AdmitCreate, AdmitExisting, AdmitRetry, DriveOperation, FinishOperation, PassiveObserve, RecordEvidence;
  }

  lemma NextOfFinish(s: Records, c: Catalog, x: Execution, finish: Finish, evidence: Option<OutputEvidence>, detail: string, at: Time)
    ensures Next(s, c, DoFinish(x, finish, evidence, detail, at)) ==
              var r := FinishOperation(s, c, x, finish, evidence, detail, at); if r.Ok? then r.value else s
  {
    hide AdmitCreate, AdmitExisting, AdmitRetry, DriveOperation, FinishOperation, PassiveObserve, RecordEvidence;
  }

  /** The step leaves every tale told and moves at most one operation. */
  ghost predicate Faithful(s: Records, c: Catalog, d: Deed, step: Step) {
    hide Next, AllTold, AtMostOneMoved;
    AllTold(Next(s, c, step)) && AtMostOneMoved(s, Next(s, c, step), d)
  }

  lemma StandsStill(s: Records, d: Deed)
    ensures AtMostOneMoved(s, s, d)
  {
  }

  /** Recording what fits the operation's tale. */
  lemma RecordDeed(s: Records, c: Catalog, d: Deed, oid: OperationID, x: Execution)
    requires Invariant(s, c) && AllTold(s) && oid in s.executions && x.intent == s.executions[oid].intent
    requires UnderWay(s, oid) ==> Tale(s.operations[oid], x)
    ensures Faithful(s, c, d, DoRecord(x))
  {
    hide Invariant, Next, RecordEvidence, Tale, AllTold, AtMostOneMoved;
    InHandOf(s, c, oid);
    NextOfRecord(s, c, x);
    StandsStill(s, d);
    if s.operations[oid].IsTerminal() {
      StaleWorkIsRefused(s, c, x, Finish(false, "", "", NO_FACTS), None, "", 0);
    } else if RecordEvidence(s, x).Ok? {
      RecordTells(s, d, x, RecordEvidence(s, x).value);
    }
  }

  /** Finishing with a record that supports it. */
  lemma FinishDeed(s: Records, c: Catalog, d: Deed, oid: OperationID, x: Execution, finish: Finish, evidence: Option<OutputEvidence>,
                   detail: string, at: Time)
    requires Invariant(s, c) && AllTold(s) && oid in s.executions && x.intent == s.executions[oid].intent && !d.Requests?
    requires UnderWay(s, oid) ==>
               && Supports(x, x.intent.capability, finish, at)
               && (if x.IsOutputRecovery() then x.currentAttempt == 0 else x.currentAttempt != 0)
    ensures Faithful(s, c, d, DoFinish(x, finish, evidence, detail, at))
  {
    hide Invariant, Next, FinishOperation, Tale, AllTold, Supports, SameButFor, NeverAsked;
    InHandOf(s, c, oid);
    NextOfFinish(s, c, x, finish, evidence, detail, at);
    if s.operations[oid].IsTerminal() {
      StaleWorkIsRefused(s, c, x, finish, evidence, detail, at);
    } else if FinishOperation(s, c, x, finish, evidence, detail, at).Ok? {
      var n := FinishOperation(s, c, x, finish, evidence, detail, at).value;
      FinishTells(s, c, s.operations[oid], x, finish, evidence, detail, at, n);
      assert Moved(s, n, d, oid);
    }
  }

  lemma DispatchingTale(o: Operation, x: Execution)
    requires !o.IsTerminal() && Tale(o, x) && (x.state.AttemptDispatching? || x.state.AttemptPending?)
    ensures !x.IsOutputRecovery() && (x.state.AttemptDispatching? ==> x.currentAttempt != 0)
  {
  }

  /** An unsettled execution that was released tells its tale whatever else it records. */
  lemma ReleasedIsTold(o: Operation, x: Execution)
    requires !o.IsTerminal() && !x.IsSettled() && x.currentAttempt != 0 && !x.IsOutputRecovery()
    ensures Tale(o, x)
  {
  }

  lemma SubmissionDeed(s: Records, c: Catalog, d: Deed, oid: OperationID, submission: Observation, error: Option<string>, detail: string,
                       clock: Time, rejection: string)
    requires Invariant(s, c) && AllTold(s) && oid in s.executions && s.executions[oid].state.AttemptDispatching? && !d.Requests?
    requires clock != ZERO_TIME && Documented(submission) && Timely(s.executions[oid], DatedAt(submission, clock))
    ensures Faithful(s, c, d, SubmissionStep(s.executions[oid], submission, error, detail, clock, rejection))
  {
    hide Invariant, Next, Faithful, InterpretSubmission, Tale, AllTold, AtMostOneMoved, Supports, Documented, Timely,
         SubmissionRuns.SaysRejected, SubmissionRuns.SaysSucceeded, SubmissionRuns.SaysAbsent;
    var x, at := s.executions[oid], DatedAt(submission, clock);
    var a := SubmissionRuns.NewAttempt(x);
    var r := InterpretSubmission(x, a, submission, error, detail, at);
    InHandOf(s, c, oid);
    SubmissionRuns.SubmissionEffects(x, a, submission, error, detail, at);
    if UnderWay(s, oid) {
      DispatchingTale(s.operations[oid], x);
      if r.finish.Some? {
        SubmissionSupports(x, a, submission, error, detail, at);
      } else {
        ReleasedIsTold(s.operations[oid], Rescheduled(r.execution));
      }
    }
    if r.finish.None? {
      RecordDeed(s, c, d, oid, Rescheduled(r.execution));
    } else {
      FinishDeed(s, c, d, oid, r.execution, r.finish.value, submission.outputs, rejection, at);
    }
  }

  lemma RecoverySupports(o: Operation, x: Execution, seen: Observation, at: Time)
    requires !o.IsTerminal() && x.IsOutputRecovery() && Tale(o, x) && ShowsSuccess(seen) && at == DatedAt(seen, at) && at != ZERO_TIME
    ensures Supports(RecoveryFinishing(x, seen, at), o.capability, Finish(true, ObservationSucceeded(), "", seen.facts), at)
    ensures RecoveryFinishing(x, seen, at).currentAttempt == 0
  {
  }

  lemma AwaitingSupports(o: Operation, x: Execution, facts: ObservedFacts)
    requires !o.IsTerminal() && !x.IsOutputRecovery() && x.IsSettled() && Tale(o, x)
    ensures Supports(x, o.capability, Finish(true, ObservationSucceeded(), "", facts), x.lastObservedAt) && x.currentAttempt != 0
  {
  }

  lemma NotedTale(o: Operation, x: Execution, seen: Observation, at: Time)
    requires !o.IsTerminal() && x.IsOutputRecovery() && Tale(o, x)
    ensures Tale(o, Rescheduled(RecoveryNoted(x, seen, at)))
  {
  }

  lemma PendingDeed(s: Records, c: Catalog, d: Deed, oid: OperationID, o: Observation, at: Time, rejection: string)
    requires Invariant(s, c) && AllTold(s) && oid in s.executions && !d.Requests? && at == DatedAt(o, at) && at != ZERO_TIME
    requires s.executions[oid].state.AttemptSucceeded? && s.executions[oid].outputs.resolution.ResolutionPending?
    ensures var step := PendingStep(s.executions[oid], o, at, rejection); step.Some? ==> Faithful(s, c, d, step.value)
  {
    hide Invariant, Next, Faithful, Tale, AllTold, AtMostOneMoved, Supports, ShowsSuccess;
    var x := s.executions[oid];
    InHandOf(s, c, oid);
    var finish := Finish(true, ObservationSucceeded(), "", o.facts);
    if !ShowsSuccess(o) {
      if x.IsOutputRecovery() {
        if UnderWay(s, oid) {
          NotedTale(s.operations[oid], x, o, at);
        }
        RecordDeed(s, c, d, oid, Rescheduled(RecoveryNoted(x, o, at)));
      }
    } else if x.IsOutputRecovery() {
      if UnderWay(s, oid) {
        RecoverySupports(s.operations[oid], x, o, at);
      }
      FinishDeed(s, c, d, oid, RecoveryFinishing(x, o, at), finish, o.outputs, rejection, at);
    } else {
      if UnderWay(s, oid) {
        AwaitingSupports(s.operations[oid], x, o.facts);
      }
      FinishDeed(s, c, d, oid, x, finish, o.outputs, rejection, x.lastObservedAt);
    }
  }

  lemma UnsettledTale(o: Operation, x: Execution)
    requires !o.IsTerminal() && Tale(o, x) && !(x.state.AttemptSucceeded? && x.outputs.resolution.ResolutionPending?)
    ensures !x.IsOutputRecovery() && !x.IsSettled()
  {
  }

  predicate Reads(x: Execution, o: Observation, at: Time, r: Reading<ObservationOutcome>) {
    InterpretObservation(x, SubmissionRuns.NewAttempt(x), o, at) == Ok(r)
  }

  lemma ReadingDeed(s: Records, c: Catalog, d: Deed, oid: OperationID, o: Observation, at: Time, rejection: string, r: Reading<ObservationOutcome>)
    requires Invariant(s, c) && AllTold(s) && oid in s.executions && !d.Requests? && at != ZERO_TIME && Documented(o)
    requires !(s.executions[oid].state.AttemptSucceeded? && s.executions[oid].outputs.resolution.ResolutionPending?)
    requires UnderWay(s, oid) && s.executions[oid].currentAttempt != 0
    requires Reads(s.executions[oid], o, at, r)
    ensures Faithful(s, c, d, ReadingStep(r, o, at, rejection))
  {
    hide Invariant, Next, Faithful, InterpretObservation, Tale, AllTold, AtMostOneMoved, Supports, Documented,
         SubmissionRuns.SaysRejected, SubmissionRuns.SaysSucceeded;
    var x := s.executions[oid];
    var a := SubmissionRuns.NewAttempt(x);
    InHandOf(s, c, oid);
    UnsettledTale(s.operations[oid], x);
    SubmissionRuns.ObservationEffects(x, a, o, at);
    if r.finish.Some? {
      ObservationSupports(x, a, o, at);
      SameAttemptOnFinish(x, a, o, at);
      FinishDeed(s, c, d, oid, r.execution, r.finish.value, o.outputs, rejection, at);
    } else {
      ReleasedIsTold(s.operations[oid], r.execution);
      ReleasedIsTold(s.operations[oid], Rescheduled(r.execution));
      RecordDeed(s, c, d, oid, r.execution);
      RecordDeed(s, c, d, oid, Rescheduled(r.execution));
    }
  }

  lemma SameAttemptOnFinish(x: Execution, a: Attempt, o: Observation, at: Time)
    requires InterpretObservation(x, a, o, at).Ok? && InterpretObservation(x, a, o, at).value.finish.Some?
    ensures InterpretObservation(x, a, o, at).value.execution.currentAttempt == x.currentAttempt
  {
    hide FailureFrom, FactsAcceptable, UncorrelatedFailure;
  }

  lemma LookDeed(s: Records, c: Catalog, d: Deed, oid: OperationID, o: Observation, clock: Time, rejection: string)
    requires Invariant(s, c) && AllTold(s) && oid in s.executions && !d.Requests? && clock != ZERO_TIME && Documented(o)
    ensures var step := LookStep(s.executions[oid], o, clock, rejection); step.Some? ==> Faithful(s, c, d, step.value)
  {
    hide Invariant, Next, Faithful, InterpretObservation, Tale, AllTold, AtMostOneMoved, Documented, PendingStep;
    var x, at := s.executions[oid], DatedAt(o, clock);
    InHandOf(s, c, oid);
    var step := LookStep(x, o, clock, rejection);
    if x.state.AttemptSucceeded? && x.outputs.resolution.ResolutionPending? {
      PendingDeed(s, c, d, oid, o, at, rejection);
    } else if step.Some? {
      var r := InterpretObservation(x, SubmissionRuns.NewAttempt(x), o, at).value;
      if UnderWay(s, oid) {
        ReadingDeed(s, c, d, oid, o, at, rejection, r);
      } else {
        IntentIsKept(x, SubmissionRuns.NewAttempt(x), o, at);
        OverIsOver(s, c, d, oid, step.value);
      }
    }
  }

  lemma IntentIsKept(x: Execution, a: Attempt, o: Observation, at: Time)
    requires InterpretObservation(x, a, o, at).Ok?
    ensures InterpretObservation(x, a, o, at).value.execution.intent == x.intent
  {
    hide FailureFrom, FactsAcceptable, UncorrelatedFailure;
  }

  predicate Writes(step: Step, oid: OperationID) {
    match step
    case DoRecord(x) => x.intent.operationID == oid
    case DoFinish(x, _, _, _, _) => x.intent.operationID == oid
    case _ => false
  }

  /** No record and no finish touches an operation that is over. */
  lemma OverIsOver(s: Records, c: Catalog, d: Deed, oid: OperationID, step: Step)
    requires AllTold(s) && oid in s.operations && s.operations[oid].IsTerminal()
    requires Writes(step, oid)
    ensures Faithful(s, c, d, step)
  {
    hide Next, RecordEvidence, FinishOperation;
    match step
    case DoRecord(x) =>
      NextOfRecord(s, c, x);
      StaleWorkIsRefused(s, c, x, Finish(false, "", "", NO_FACTS), None, "", 0);
    case DoFinish(x, finish, evidence, detail, at) =>
      NextOfFinish(s, c, x, finish, evidence, detail, at);
      StaleWorkIsRefused(s, c, x, finish, evidence, detail, at);
  }

  lemma RequestDeed(s: Records, c: Catalog, step: Step)
    requires Steady(s, c) && AllTold(s) && !step.DoRecord? && !step.DoFinish?
    ensures Faithful(s, c, Requests(step), step)
  {
    hide Steady, Invariant, CleanRows, AdmitCreate, AdmitExisting, AdmitRetry, DriveOperation, RecordEvidence, FinishOperation, PassiveObserve,
         TransportSafe, AllTold, AtMostOneMoved, SameButFor;
    SteadyParts(s, c);
    var d := Requests(step);
    StandsStill(s, d);
    if Taken(s, c, step).Some? {
      var n := Taken(s, c, step).value;
      match step
      case DoCreate(q) => CreateTells(s, c, d, q, n);
      case DoExisting(q) => ExistingTells(s, c, d, q, n);
      case DoRetry(q) => RetryTells(s, c, d, q, n);
      case DoDrive(oid) =>
        DriveTells(s, c, oid, n);
        DriveMoves(s, c, d, oid, n);
      case DoObserve(id, f, at) => ObserveMoves(s, c, d, id, f, at, n);
    }
  }

  lemma DriveMoves(s: Records, c: Catalog, d: Deed, oid: OperationID, n: Records)
    requires DriveOperation(s, c, oid) == Ok(n) && d == Requests(DoDrive(oid)) && SameButFor(s, n, oid)
    requires oid in n.operations && oid in n.executions && (n.operations[oid].IsTerminal() ==> NeverAsked(n.executions[oid]))
    ensures AtMostOneMoved(s, n, d)
  {
    hide AdvanceThrough, SettleGateBlock, EvaluateDependencies, SameButFor, NeverAsked;
    assert Moved(s, n, d, oid);
  }

  lemma ObserveMoves(s: Records, c: Catalog, d: Deed, id: ResourceID, f: ObservedFacts, at: Time, n: Records)
    requires AllTold(s) && PassiveObserve(s, id, f, at) == Ok(n)
    ensures AllTold(n) && AtMostOneMoved(s, n, d)
  {
    hide ApplyObservation, ActiveFor, DriftAfter, Moved, Tale;
    SameTold(s, n);
  }

  /** Every deed with reliable readings keeps every operation's tale told. */
  lemma DeedKeepsTold(s: Records, c: Catalog, d: Deed)
    requires Steady(s, c) && AllTold(s) && Reliable(s, d)
    ensures Steady(Done(s, c, d), c) && AllTold(Done(s, c, d)) && AtMostOneMoved(s, Done(s, c, d), d)
  {
    hide Steady, AllTold, AtMostOneMoved, Next, SubmissionStep, LookStep, Documented, Timely, Tale;
    StandsStill(s, d);
    var step := StepOf(s, d);
    if step.Some? {
      StepKeepsSteady(s, c, step.value);
      assert Invariant(s, c) by { SteadyParts(s, c); }
      assert Faithful(s, c, d, step.value) by {
        hide Invariant;
        match d
        case Requests(asked) => RequestDeed(s, c, asked);
        case Claims(oid, mapping) => ClaimDeed(s, c, d, oid, mapping);
        case GivesBack(oid) => GiveBackDeed(s, c, d, oid);
        case Loses(oid, why) => LossDeed(s, c, d, oid, why);
        case Submits(oid, submission, error, detail, clock, rejection) =>
          SubmissionDeed(s, c, d, oid, submission, error, detail, clock, rejection);
        case Looks(oid, o, clock, rejection) => LookDeed(s, c, d, oid, o, clock, rejection);
      }
    }
  }

  lemma ClaimDeed(s: Records, c: Catalog, d: Deed, oid: OperationID, mapping: string)
    requires Invariant(s, c) && AllTold(s) && oid in s.executions
    requires var x := s.executions[oid]; x.state.AttemptPending? && x.currentAttempt != 0 && !x.IsOutputRecovery()
    ensures Faithful(s, c, d, DoRecord(BoundMapping(s.executions[oid], mapping).(state := AttemptDispatching)))
  {
    hide Invariant, AllTold, Faithful, Next, Tale;
    InHandOf(s, c, oid);
    var x := BoundMapping(s.executions[oid], mapping).(state := AttemptDispatching);
    if UnderWay(s, oid) {
      ReleasedIsTold(s.operations[oid], x);
    }
    RecordDeed(s, c, d, oid, x);
  }

  lemma GiveBackDeed(s: Records, c: Catalog, d: Deed, oid: OperationID)
    requires Invariant(s, c) && AllTold(s) && oid in s.executions && s.executions[oid].state.AttemptDispatching?
    ensures Faithful(s, c, d, DoRecord(s.executions[oid].(state := AttemptPending)))
  {
    hide Invariant, AllTold, Faithful, Next, Tale;
    InHandOf(s, c, oid);
    var x := s.executions[oid].(state := AttemptPending);
    if UnderWay(s, oid) {
      DispatchingTale(s.operations[oid], s.executions[oid]);
      ReleasedIsTold(s.operations[oid], x);
    }
    RecordDeed(s, c, d, oid, x);
  }

  lemma LossDeed(s: Records, c: Catalog, d: Deed, oid: OperationID, why: Option<ExecutionFailure>)
    requires Invariant(s, c) && AllTold(s) && oid in s.executions && s.executions[oid].state.AttemptDispatching?
    ensures var x := s.executions[oid];
            Faithful(s, c, d, DoRecord(Rescheduled(x.(state := AttemptUnknown, correlation := CorrUnknown,
                                                      lastFailure := if why.Some? then why else x.lastFailure))))
  {
    hide Invariant, AllTold, Faithful, Next, Tale;
    InHandOf(s, c, oid);
    var x := s.executions[oid];
    var y := Rescheduled(x.(state := AttemptUnknown, correlation := CorrUnknown, lastFailure := if why.Some? then why else x.lastFailure));
    if UnderWay(s, oid) {
      DispatchingTale(s.operations[oid], x);
      ReleasedIsTold(s.operations[oid], y);
    }
    RecordDeed(s, c, d, oid, y);
  }

  // --------------------------------------------------------------------------- all runs

  /** Over every run with reliable readings all record invariants hold, and every
      operation that is over was left by its gate without any evidence or has evidence
      that tells its outcome. */
  lemma {:induction false} EveryRunIsTold(s: Records, c: Catalog, ds: seq<Deed>)
    requires Steady(s, c) && AllTold(s) && AllReliable(s, c, ds)
    ensures Steady(Perform(s, c, ds), c) && AllTold(Perform(s, c, ds))
    decreases |ds|
  {
    hide Steady, AllTold, Done, Reliable, AtMostOneMoved;
    if ds != [] {
      DeedKeepsTold(s, c, ds[0]);
      EveryRunIsTold(Done(s, c, ds[0]), c, ds[1..]);
    }
  }

  predicate IsOver(s: Records, oid: OperationID) {
    oid in s.operations && s.operations[oid].IsTerminal()
  }

  /** Some drive of the run ended the operation at its dependency gate. */
  ghost predicate FailedByGate(s: Records, c: Catalog, ds: seq<Deed>, oid: OperationID)
    decreases |ds|
  {
    hide Done;
    ds != [] &&
    ((IsDriveOf(ds[0], oid) && !IsOver(s, oid) && IsOver(Done(s, c, ds[0]), oid))
     || FailedByGate(Done(s, c, ds[0]), c, ds[1..], oid))
  }

  lemma OverStays(s: Records, n: Records, d: Deed, oid: OperationID)
    requires AtMostOneMoved(s, n, d) && IsOver(s, oid) && oid in s.executions
    ensures IsOver(n, oid) && oid in n.executions && n.executions[oid] == s.executions[oid]
  {
  }

  lemma EndsUnaskedAtItsGate(s: Records, n: Records, d: Deed, oid: OperationID)
    requires AtMostOneMoved(s, n, d) && !IsOver(s, oid) && IsOver(n, oid)
    ensures oid in n.executions && (NeverAsked(n.executions[oid]) <==> IsDriveOf(d, oid))
  {
    hide NeverAsked;
  }

  lemma {:induction false} OverStaysOver(s: Records, c: Catalog, ds: seq<Deed>, oid: OperationID)
    requires Steady(s, c) && AllTold(s) && AllReliable(s, c, ds) && IsOver(s, oid) && oid in s.executions
    ensures var n := Perform(s, c, ds);
            && IsOver(n, oid) && oid in n.executions && n.executions[oid] == s.executions[oid]
            && !FailedByGate(s, c, ds, oid)
    decreases |ds|
  {
    hide Steady, AllTold, Done, Reliable, AtMostOneMoved, IsOver;
    if ds != [] {
      DeedKeepsTold(s, c, ds[0]);
      OverStays(s, Done(s, c, ds[0]), ds[0], oid);
      OverStaysOver(Done(s, c, ds[0]), c, ds[1..], oid);
    }
  }

  /** An operation that is over has no evidence exactly when its gate failed it. */
  lemma {:induction false} OverUnaskedExactly(s: Records, c: Catalog, ds: seq<Deed>, oid: OperationID)
    requires Steady(s, c) && AllTold(s) && AllReliable(s, c, ds) && !IsOver(s, oid)
    ensures FailedByGate(s, c, ds, oid) ==> IsOver(Perform(s, c, ds), oid)
    ensures IsOver(Perform(s, c, ds), oid) ==>
              && oid in Perform(s, c, ds).executions
              && (NeverAsked(Perform(s, c, ds).executions[oid]) <==> FailedByGate(s, c, ds, oid))
    decreases |ds|
  {
    hide Steady, AllTold, Done, Reliable, AtMostOneMoved, IsOver, NeverAsked;
    if ds != [] {
      var n := Done(s, c, ds[0]);
      DeedKeepsTold(s, c, ds[0]);
      if IsOver(n, oid) {
        EndsUnaskedAtItsGate(s, n, ds[0], oid);
        OverStaysOver(n, c, ds[1..], oid);
      } else {
        OverUnaskedExactly(n, c, ds[1..], oid);
      }
    }
  }

  lemma NothingTold()
    ensures AllTold(EMPTY)
  {
  }

  /** The stored evidence is older than what is stored about the resource. */
  predicate Outdated(x: Execution, rec: Record) {
    x.lastObservedAt < rec.resource.updatedAt || x.lastObservedAt < rec.status.updatedAt
  }

  /** The operation still waits for its outputs, with evidence that is outdated by now. */
  predicate WaitsOutdated(o: Operation, x: Execution, rec: Record) {
    !o.IsTerminal() && !x.IsOutputRecovery() && x.IsSettled() && Outdated(x, rec)
  }

  lemma ToldAnswers(o: Operation, x: Execution, rec: Record)
    requires Tale(o, x)
    ensures NeedsEvidence(o, x) && !EvidenceAccepted(x, rec.resource, rec.status, o) <==>
              (o.IsTerminal() && NeverAsked(x)) || WaitsOutdated(o, x, rec)
  {
    hide NormalizeFailure;
  }

  /** In every run from the empty records with reliable readings, a bound key replays its
      operation, unless its gate failed it, or it waits for outputs with evidence that is
      older than its resource. */
  lemma EveryKeyReplays(c: Catalog, ds: seq<Deed>, k: BindingKey)
    requires AllReliable(EMPTY, c, ds) && k in Perform(EMPTY, c, ds).bindings
    ensures var n := Perform(EMPTY, c, ds);
            var b := n.bindings[k];
            && b.operationID in n.operations && b.operationID in n.executions && b.resourceID in n.resources
            && Replay(n, Some(k), b.fingerprint, b.kind) ==
                 if FailedByGate(EMPTY, c, ds, b.operationID)
                    || WaitsOutdated(n.operations[b.operationID], n.executions[b.operationID], n.resources[b.resourceID])
                 then Err(EvidenceRejected)
                 else Ok(Some(b.operationID))
  {
    hide Steady, Perform, AllTold, FailedByGate, AllReliable, Replay, NeverAsked, EvidenceAccepted, NeedsEvidence, WaitsOutdated, Tale;
    EmptyIsSteady(c);
    NothingTold();
    EveryRunIsTold(EMPTY, c, ds);
    var n := Perform(EMPTY, c, ds);
    var b := n.bindings[k];
    assert Invariant(n, c) by { SteadyParts(n, c); }
    hide Invariant;
    BoundKeyAnswers(n, c, k, b.fingerprint, b.kind);
    OverUnaskedExactly(EMPTY, c, ds, b.operationID);
    ToldOf(n, b.operationID);
    ToldAnswers(n.operations[b.operationID], n.executions[b.operationID], n.resources[b.resourceID]);
  }
}
