/** Ten deeds from the empty records: a resource whose create fails, another one that
    uses it under an idempotency key, and the gate that then fails it for good. */
module GateRefusal {
  import opened Admission
  import opened AdmissionFacts
  import opened Basics
  import opened ControlPlane
  import opened Convergence
  import opened ConvergenceFacts
  import opened DeleteRetry
  import opened Dependencies
  import opened Domain
  import opened Drive
  import opened EvidenceRuns
  import opened FinishFacts
  import opened Finishing
  import opened Keys
  import opened Lifecycle
  import opened LifecycleRuns
  import opened Ordering
  import opened Provisioning
  import opened References
  import opened Store
  import opened Submission
  import opened Testimony
  import Cells
  import SubmissionRuns

  // --------------------------------------------------------------- one create at a time

  /** A create in progress, at this phase. */
  predicate Working(s: Records, id: ResourceID, oid: OperationID, phase: Phase) {
    && oid in s.operations && oid in s.executions
    && s.operations[oid].resourceID == id && s.operations[oid].capability.Create? && s.operations[oid].phase == phase
    && (if phase.Requested? then s.operations[oid].state.OpPending? else s.operations[oid].state.OpRunning?)
  }

  /** Nothing but this operation, its execution and its resource's status changed. */
  ghost predicate OnlyWorked(s: Records, n: Records, id: ResourceID, oid: OperationID) {
    && SameButFor(s, n, oid) && OthersStand(s, n, id)
    && n.desired == s.desired && n.applied == s.applied && n.bindings == s.bindings && n.latest == s.latest
    && n.operations.Keys == s.operations.Keys
    && id in s.resources && id in n.resources && n.resources[id].resource == s.resources[id].resource
  }

  /** The execution as its operation leaves the phase. */
  function Leaving(x: Execution, phase: Phase): Execution {
    if phase.Planning? then x.(currentAttempt := 1) else x
  }

  lemma AdvanceIsAccepted(c: Catalog, rec: Record, o: Operation, updates: nat, drifted: bool, published: Option<Published>, next: Phase, eventID: EventID)
    requires CellOk(c, rec, o, updates, drifted, published) && !o.IsTerminal() && CanAdvanceTo(o, next) && !Blank(eventID)
    ensures Advance(rec.resource, rec.status, o, next, eventID, o.phaseChangedAt + 1).Ok?
    ensures AdvancePhase(o, next, o.phaseChangedAt + 1).Ok?
    ensures Advance(rec.resource, rec.status, o, next, eventID, o.phaseChangedAt + 1).value.operation ==
              AdvancePhase(o, next, o.phaseChangedAt + 1).value
  {
    hide Upsert, ByKind, UniqueKinds, ConditionsFit, SetCondition;
    var w := World(rec.resource, rec.status, Some(o));
    AdvanceKeepsCoherent(w, DoAdvance(next, eventID, o.phaseChangedAt + 1));
  }

  /** The operation went on to its next phase. */
  ghost predicate WentOn(s: Records, n: Records, id: ResourceID, oid: OperationID, phase: Phase, next: Phase) {
    && OnlyWorked(s, n, id, oid) && Working(n, id, oid, next)
    && oid in s.executions && n.executions[oid] == Leaving(s.executions[oid], phase)
    && n.resources[id].status.state == s.resources[id].status.state
  }

  lemma AdvanceWrites(s: Records, c: Catalog, id: ResourceID, oid: OperationID, phase: Phase, next: Phase) returns (n: Records)
    requires Working(s, id, oid, phase) && id in s.resources && s.operations[oid].id == oid && Untouched(s.executions[oid])
    requires CellOk(c, s.resources[id], s.operations[oid], UpdatesOf(s, id), id in s.driftSeen, PublishedOf(s, id))
    requires !s.operations[oid].IsTerminal() && NextPhase(s.operations[oid]) == Some(next)
    ensures AdvanceThrough(s, id, s.operations[oid], s.executions[oid], next, false, s.operations[oid].phaseChangedAt + 1) == Ok(n)
    ensures WentOn(s, n, id, oid, phase, next)
  {
    hide CellOk, Advance, AdvancePhase, UpdatesOf, PublishedOf, InternalEventID, TransitionLabel, MoveOperation, OnlyWorked;
    var o, rec := s.operations[oid], s.resources[id];
    var eventID, at := InternalEventID(oid, TransitionLabel(next)), o.phaseChangedAt + 1;
    AdvanceIsAccepted(c, rec, o, UpdatesOf(s, id), id in s.driftSeen, PublishedOf(s, id), next, eventID);
    AdvancedState(rec.resource, rec.status, o, next, eventID, at);
    PhaseChanges(o, next, at);
    n := AdvanceThrough(s, id, o, s.executions[oid], next, false, at).value;
    var t := Advance(rec.resource, rec.status, o, next, eventID, at).value;
    MovedWorks(s, id, t.status, t.operation, Leaving(s.executions[oid], phase));
  }

  lemma PhaseChanges(o: Operation, next: Phase, at: Time)
    requires AdvancePhase(o, next, at).Ok?
    ensures var p := AdvancePhase(o, next, at).value;
            p.id == o.id && p.resourceID == o.resourceID && p.capability == o.capability && p.phase == next && p.state.OpRunning?
  {
  }

  lemma MovedWorks(s: Records, id: ResourceID, status: ResourceStatus, o: Operation, x: Execution)
    requires id in s.resources && o.id in s.operations
    ensures var n := MoveOperation(s, id, status, o, x, s.desired, s.applied, s.outputs, s.driftSeen);
            && OnlyWorked(s, n, id, o.id) && n.operations[o.id] == o && o.id in n.executions && n.executions[o.id] == x
            && n.resources[id].status == status
  {
  }

  lemma DriveIsAdvance(s: Records, c: Catalog, id: ResourceID, oid: OperationID, phase: Phase, next: Phase)
    requires Working(s, id, oid, phase) && id in s.resources && Untouched(s.executions[oid])
    requires NextPhase(s.operations[oid]) == Some(next)
    requires phase.Planning? ==> EvaluateDependencies(s, c, id).NotGated?
    ensures DriveOperation(s, c, oid) ==
              AdvanceThrough(s, id, s.operations[oid], s.executions[oid], next, false, s.operations[oid].phaseChangedAt + 1)
  {
    hide AdvanceThrough, EvaluateDependencies, SettleGateBlock;
  }

  /** A drive that no gate holds up. */
  lemma DriveAdvances(s: Records, c: Catalog, id: ResourceID, oid: OperationID, phase: Phase, next: Phase) returns (n: Records)
    requires Steady(s, c) && Working(s, id, oid, phase) && Untouched(s.executions[oid]) && NextPhase(s.operations[oid]) == Some(next)
    requires phase.Planning? && id in s.resources ==> EvaluateDependencies(s, c, id).NotGated?
    ensures n == Done(s, c, Requests(DoDrive(oid))) && Steady(n, c) && WentOn(s, n, id, oid, phase, next)
  {
    hide Steady, CleanRows, EvaluateDependencies, CellOk, ContextFits, UpdatesOf, PublishedOf, Untouched, DriveOperation, Done, Next,
         AdvanceThrough, NextPhase, WentOn, Books, Links, Bound;
    assert !s.operations[oid].IsTerminal();
    assert Books(s, c) by { BooksOf(s, c); }
    WorkInHand(s, c, oid);
    hide Working;
    DriveIsAdvance(s, c, id, oid, phase, next);
    n := AdvanceWrites(s, c, id, oid, phase, next);
    NextOfDrive(s, c, oid);
    StepKeepsSteady(s, c, DoDrive(oid));
  }

  lemma BooksOf(s: Records, c: Catalog)
    requires Steady(s, c)
    ensures Books(s, c) && Invariant(s, c)
  {
    hide Books, Links, Bound;
  }

  lemma AdvancedState(r: Resource, s: ResourceStatus, o: Operation, next: Phase, eventID: EventID, at: Time)
    requires Advance(r, s, o, next, eventID, at).Ok?
    ensures Advance(r, s, o, next, eventID, at).value.status.state == s.state
  {
    hide SetCondition;
  }

  lemma NextOfDrive(s: Records, c: Catalog, oid: OperationID)
    ensures Next(s, c, DoDrive(oid)) == if DriveOperation(s, c, oid).Ok? then DriveOperation(s, c, oid).value else s
    ensures Done(s, c, Requests(DoDrive(oid))) == Next(s, c, DoDrive(oid))
  {
    hide AdmitCreate, AdmitExisting, AdmitRetry, DriveOperation, FinishOperation, PassiveObserve, RecordEvidence, SubmissionStep, LookStep;
  }

  // --------------------------------------------------------------------- the failure

  /** An accepted execution that failed, and says so. */
  const BROKEN := Observation(CorrFound, Some(BackendExecution(BackendFailed, None, Some(ExecutionFailure(KindExecution, "b", "")))),
                              NO_FACTS, ZERO_TIME, None)

  function Reported(oid: OperationID): Deed { Submits(oid, BROKEN, None, "", 1, "") }

  /** Claimed for its first attempt. */
  ghost predicate Claimed(s: Records, n: Records, id: ResourceID, oid: OperationID) {
    && OnlyWorked(s, n, id, oid) && Working(n, id, oid, Applying) && n.resources == s.resources && n.operations == s.operations
    && n.executions[oid].state.AttemptDispatching? && n.executions[oid].lastObservedAt == ZERO_TIME
  }

  lemma ClaimIsTaken(s: Records, c: Catalog, id: ResourceID, oid: OperationID) returns (n: Records)
    requires Steady(s, c) && Working(s, id, oid, Applying)
    requires var x := s.executions[oid]; x.state.AttemptPending? && x.currentAttempt == 1 && !x.IsOutputRecovery() && x.lastObservedAt == ZERO_TIME
    ensures n == Done(s, c, Claims(oid, "")) && Steady(n, c) && Claimed(s, n, id, oid)
  {
    hide Steady, Next, RecordEvidence, Books, Links, Bound, Invariant, SubmissionStep, LookStep;
    BooksOf(s, c);
    IntentNames(s, c, oid);
    var y := BoundMapping(s.executions[oid], "").(state := AttemptDispatching);
    NextOfRecord(s, c, y);
    RecordIsTaken(s, y);
    n := s.(executions := s.executions[oid := y]);
    StepKeepsSteady(s, c, DoRecord(y));
  }

  lemma RecordIsTaken(s: Records, x: Execution)
    requires var oid := x.intent.operationID;
             oid in s.operations && oid in s.executions && !s.operations[oid].IsTerminal() && x.intent == s.executions[oid].intent
    ensures RecordEvidence(s, x) == Ok(s.(executions := s.executions[x.intent.operationID := x]))
  {
  }

  lemma IntentNames(s: Records, c: Catalog, oid: OperationID)
    requires Invariant(s, c) && oid in s.operations && oid in s.executions
    ensures s.executions[oid].intent.operationID == oid && s.operations[oid].id == oid
    ensures s.operations[oid].resourceID in s.resources
  {
    hide Links, Bound, ResourceOk;
    assert OperationOk(s, oid);
  }

  lemma BrokenIsFailure(x: Execution)
    ensures Submission.Classify(x, BROKEN, None) == CorrelatedFailure
    ensures WithoutMalformedFacts(BROKEN) == BROKEN && FailureFrom(None, BROKEN.execution) == ExecutionFailure(KindExecution, "b", "")
    ensures Documented(BROKEN)
  {
    assert !IsSpace("b"[0]);
  }

  lemma BrokenIsRead(x: Execution)
    requires x.lastObservedAt == ZERO_TIME
    ensures SubmissionStep(x, BROKEN, None, "", 1, "").DoFinish?
    ensures var step := SubmissionStep(x, BROKEN, None, "", 1, "");
            && step.finished.intent == x.intent && step.finish == Finish(false, "b", "", NO_FACTS) && step.finishedAt == 1
    ensures Documented(BROKEN) && Timely(x, 1)
  {
    hide Submission.Classify, WithoutMalformedFacts, FailureFrom, StaleFailure, MalformedFailure, AcceptProvider, Documented;
    BrokenIsFailure(x);
    DatedAtClock();
  }

  lemma FailureIsAccepted(c: Catalog, rec: Record, o: Operation, updates: nat, drifted: bool, published: Option<Published>, finish: Finish, at: Time)
    requires CellOk(c, rec, o, updates, drifted, published) && !o.IsTerminal() && o.capability.Create?
    requires !finish.succeeded && !Blank(finish.reason) && finish.facts == NO_FACTS && rec.status.updatedAt <= at
    ensures BuildFinishEvidence(o, rec.resource, rec.status, finish, at).Ok?
    ensures BuildFinishEvidence(o, rec.resource, rec.status, finish, at).value.status.state.RsFailed?
  {
    hide Coherent, EngineOutcome;
    EngineOutcomeAccepts(o, rec.resource, rec.status, finish, at);
    CreateFailsToFailed(o, rec.resource, rec.status, finish, at);
  }

  lemma CreateFailsToFailed(o: Operation, r: Resource, s: ResourceStatus, finish: Finish, at: Time)
    requires EngineOutcome(o, r, s, finish, at).Ok? && !finish.succeeded && o.capability.Create?
    ensures EngineOutcome(o, r, s, finish, at).value.status.state.RsFailed?
  {
    hide FailedConditions, StatusWellFormed, InternalEventID;
  }

  /** The resource failed, its operation is over, and nothing runs. */
  ghost predicate FailedAt(s: Records, id: ResourceID, oid: OperationID) {
    && id in s.resources && s.resources[id].status.state.RsFailed?
    && id in s.latest && s.latest[id] == oid && IsOver(s, oid)
  }

  lemma BrokenIsRecorded(s: Records, c: Catalog, id: ResourceID, oid: OperationID) returns (n: Records)
    requires Steady(s, c) && Working(s, id, oid, Applying)
    requires s.executions[oid].state.AttemptDispatching? && s.executions[oid].lastObservedAt == ZERO_TIME
    ensures n == Done(s, c, Reported(oid)) && Steady(n, c) && OnlyWorked(s, n, id, oid) && FailedAt(n, id, oid)
    ensures Reliable(s, Reported(oid))
  {
    hide Steady, Invariant, Next, FinishOperation, SubmissionStep, CellOk, ContextFits, UpdatesOf, PublishedOf, FinishFailed, BROKEN,
         Documented, Timely, Books, Links, Bound, OnlyWorked, FailedAt, LookStep;
    BooksOf(s, c);
    WorkInHand(s, c, oid);
    IntentNames(s, c, oid);
    BrokenIsRead(s.executions[oid]);
    DatedAtClock();
    var step := SubmissionStep(s.executions[oid], BROKEN, None, "", 1, "");
    NextOfFinish(s, c, step.finished, step.finish, step.evidence, step.detail, step.finishedAt);
    FinishIsFailure(s, c, step.finished, step.finish, step.evidence, step.detail, 1);
    StepKeepsSteady(s, c, step);
    n := Next(s, c, step);
    BrokenIsWritten(s, c, id, oid, step.finished, n);
  }

  lemma DatedAtClock()
    ensures DatedAt(BROKEN, 1) == 1
  {
  }

  lemma FinishIsFailure(s: Records, c: Catalog, x: Execution, finish: Finish, evidence: Option<Provisioning.OutputEvidence>, detail: string, at: Time)
    requires var oid := x.intent.operationID;
             && oid in s.operations && oid in s.executions && !s.operations[oid].IsTerminal() && x.intent == s.executions[oid].intent
             && s.operations[oid].resourceID in s.resources
    requires !finish.succeeded
    ensures var o := s.operations[x.intent.operationID];
            FinishOperation(s, c, x, finish, evidence, detail, at) == FinishFailed(s, o.resourceID, o, x, finish, at)
  {
    hide FinishFailed, FinishRejected, FinishSucceeded;
  }

  lemma BrokenIsWritten(s: Records, c: Catalog, id: ResourceID, oid: OperationID, x: Execution, n: Records)
    requires id in s.resources && oid in s.operations && s.operations[oid].id == oid && s.operations[oid].resourceID == id
    requires !s.operations[oid].IsTerminal() && s.operations[oid].capability.Create? && id in s.latest && s.latest[id] == oid
    requires CellOk(c, s.resources[id], s.operations[oid], UpdatesOf(s, id), id in s.driftSeen, PublishedOf(s, id))
    requires FinishFailed(s, id, s.operations[oid], x, Finish(false, "b", "", NO_FACTS), 1).Ok? ==>
               n == FinishFailed(s, id, s.operations[oid], x, Finish(false, "b", "", NO_FACTS), 1).value
    ensures OnlyWorked(s, n, id, oid) && FailedAt(n, id, oid)
  {
    hide CellOk, BuildFinishEvidence, UpdatesOf, PublishedOf, DriftAfter, AlignedExecution;
    var rec, o, finish := s.resources[id], s.operations[oid], Finish(false, "b", "", NO_FACTS);
    assert !IsSpace("b"[0]);
    FailureIsAccepted(c, rec, o, UpdatesOf(s, id), id in s.driftSeen, PublishedOf(s, id), finish, Aligned(1, rec));
    FinishedIdentity(o, rec.resource, rec.status, finish, Aligned(1, rec));
    FinishedIsTerminal(o, rec.resource, rec.status, finish, Aligned(1, rec));
  }

  // ------------------------------------------------------------------ the target fails

  /** The target alone in the records, with its one operation and no keys. */
  predicate Solo(s: Records) {
    && s.resources.Keys == {"t"} && s.operations.Keys == {"a"}
    && s.desired == map[] && s.applied == map[] && s.bindings == map[]
    && s.resources["t"].resource.owner == OWNER && s.resources["t"].resource.typeRef == KIND
  }

  lemma SoloStays(s: Records, n: Records)
    requires Solo(s) && OnlyWorked(s, n, "t", "a")
    ensures Solo(n)
  {
    forall id | id in n.resources
      ensures id == "t"
    {
    }
  }

  lemma SoloIsNotGated(s: Records)
    requires Steady(s, TYPES) && Solo(s)
    ensures EvaluateDependencies(s, TYPES, "t").NotGated?
  {
    hide Invariant, CleanRows, EvaluateDependencies;
    GateAnswers(s, TYPES, "t");
  }

  lemma TargetBegins() returns (d: Deed, n: Records)
    ensures d == Requests(DoCreate(CreateOf("t", map[], "a"))) && n == Done(EMPTY, TYPES, d)
    ensures Steady(n, TYPES) && Solo(n) && Working(n, "t", "a", Requested) && Untouched(n.executions["a"])
  {
    hide Invariant, CleanRows, AdmitCreate, CanonicalOf, Blank, ShapeAccepts, Unopposed, Joined, Begun, Taken, Done, Next, Solo, Working,
         Untouched;
    EmptyIsSteady(TYPES);
    NothingIsCanonical();
    var q := CreateOf("t", map[], "a");
    d := Requests(DoCreate(q));
    NothingOpposesFirst(q);
    n := CreatedRecords(EMPTY, TYPES, q, []);
    TakenCreate(EMPTY, TYPES, q);
    StepKeepsSteady(EMPTY, TYPES, DoCreate(q));
    DoneCreate(EMPTY, TYPES, q, n);
    JoinedWorks(EMPTY, n, "t", "a", q.caller);
    FirstIsSolo(n);
  }

  lemma JoinedWorks(s: Records, n: Records, id: ResourceID, oid: OperationID, caller: Caller)
    requires Joined(s, n, id, oid, Create) && Begun(s, n, caller, oid)
    ensures Working(n, id, oid, Requested) && Untouched(n.executions[oid])
  {
  }

  lemma FirstIsSolo(n: Records)
    requires Joined(EMPTY, n, "t", "a", Create) && n.desired == PutEdges(map[], "t", 1, []) && Begun(EMPTY, n, Anyone({"t"}), "a")
    requires n.resources["t"].resource.owner == OWNER && n.resources["t"].resource.typeRef == KIND
    ensures Solo(n)
  {
    forall id | id in n.resources
      ensures id == "t"
    {
    }
  }

  lemma DoneCreate(s: Records, c: Catalog, q: CreateRequest, n: Records)
    requires Taken(s, c, DoCreate(q)) == Some(n)
    ensures Done(s, c, Requests(DoCreate(q))) == n && Next(s, c, DoCreate(q)) == n
  {
    hide Taken;
  }

  function DriveOf(oid: OperationID): Deed { Requests(DoDrive(oid)) }

  /** Driven to its final phase through three changes. */
  lemma TargetIsDriven(s: Records) returns (s1: Records, s2: Records, n: Records)
    requires Steady(s, TYPES) && Solo(s) && Working(s, "t", "a", Requested) && Untouched(s.executions["a"])
    ensures s1 == Done(s, TYPES, DriveOf("a")) && s2 == Done(s1, TYPES, DriveOf("a")) && n == Done(s2, TYPES, DriveOf("a"))
    ensures Steady(n, TYPES) && Solo(n) && Working(n, "t", "a", Applying)
    ensures n.executions["a"] == s.executions["a"].(currentAttempt := 1)
  {
    hide Steady, Done, EvaluateDependencies, OnlyWorked, Solo;
    s1 := DriveAdvances(s, TYPES, "t", "a", Requested, Validating);
    SoloStays(s, s1);
    s2 := DriveAdvances(s1, TYPES, "t", "a", Validating, Planning);
    SoloStays(s1, s2);
    SoloIsNotGated(s2);
    n := DriveAdvances(s2, TYPES, "t", "a", Planning, Applying);
    SoloStays(s2, n);
  }

  lemma TargetFails(s: Records) returns (s1: Records, n: Records)
    requires Steady(s, TYPES) && Solo(s) && Working(s, "t", "a", Applying)
    requires var x := s.executions["a"]; x.state.AttemptPending? && x.currentAttempt == 1 && !x.IsOutputRecovery() && x.lastObservedAt == ZERO_TIME
    ensures s1 == Done(s, TYPES, Claims("a", "")) && n == Done(s1, TYPES, Reported("a"))
    ensures Steady(n, TYPES) && Solo(n) && FailedAt(n, "t", "a") && Reliable(s1, Reported("a"))
  {
    hide Steady, Done, OnlyWorked, Solo, FailedAt, Reliable;
    s1 := ClaimIsTaken(s, TYPES, "t", "a");
    SoloStays(s, s1);
    n := BrokenIsRecorded(s1, TYPES, "t", "a");
    SoloStays(s1, n);
  }

  // -------------------------------------------------------------- the user is refused

  const KEY := BindingKey("", "k")

  /** The create of the user, under an idempotency key. */
  function UserRequest(): CreateRequest {
    CreateOf("s", map["uses" := ["t"]], "c").(caller := Caller("", "k", "f", true, {"t"}))
  }

  /** The user's rows name the failed target; its create is bound to the key. */
  ghost predicate UserIn(s: Records) {
    && FailedAt(s, "t", "a") && "s" in s.resources
    && s.resources["s"].resource.typeRef == KIND && s.resources["s"].resource.generation == 1
    && "s" in s.desired && s.desired["s"] == Stamped(UsesTarget(), 1)
    && KEY in s.bindings && s.bindings[KEY].operationID == "c"
  }

  lemma UserStays(s: Records, n: Records)
    requires UserIn(s) && OnlyWorked(s, n, "s", "c")
    ensures UserIn(n)
  {
  }

  lemma UserBegins(s: Records) returns (n: Records)
    requires Steady(s, TYPES) && Solo(s) && FailedAt(s, "t", "a")
    ensures n == Done(s, TYPES, Requests(DoCreate(UserRequest())))
    ensures Steady(n, TYPES) && UserIn(n) && Working(n, "s", "c", Requested) && Untouched(n.executions["c"])
  {
    hide Invariant, CleanRows, AdmitCreate, CanonicalOf, Blank, ShapeAccepts, AddedEdgesError, Unopposed, TransportSafe, Joined, Begun, Taken,
         Done, Next, Solo, Working, Untouched, PutEdges, UserIn;
    UseIsCanonical();
    UseIsInShape();
    UseIsTransportSafe();
    var q := UserRequest();
    SoloIsSafe(s);
    NothingOpposesUser(s, q);
    n := CreatedRecords(s, TYPES, q, UsesTarget());
    TakenCreate(s, TYPES, q);
    StepKeepsSteady(s, TYPES, DoCreate(q));
    DoneCreate(s, TYPES, q, n);
    JoinedWorks(s, n, "s", "c", q.caller);
    UserJoined(s, n);
  }

  lemma SoloIsSafe(s: Records)
    requires Solo(s) && FailedAt(s, "t", "a")
    ensures AddedEdgesError(s, "s", OWNER, TYPES[KIND].references, UsesTarget(), {"t"}).None?
  {
    hide AddedEdgesError;
    UseIsSafe(s);
  }

  lemma NothingOpposesUser(s: Records, q: CreateRequest)
    requires q == UserRequest() && Solo(s) && FailedAt(s, "t", "a")
    requires AddedEdgesError(s, "s", OWNER, TYPES[KIND].references, UsesTarget(), {"t"}).None?
    ensures Unopposed(s, TYPES, q, UsesTarget())
  {
    hide Blank, AddedEdgesError;
    NamesAreUsable();
  }

  lemma UserJoined(s: Records, n: Records)
    requires Solo(s) && FailedAt(s, "t", "a") && Joined(s, n, "s", "c", Create) && Begun(s, n, UserRequest().caller, "c")
    requires n.desired == PutEdges(s.desired, "s", 1, UsesTarget())
    requires n.resources["s"].resource.typeRef == KIND && n.resources["s"].resource.generation == 1
    ensures UserIn(n)
  {
    assert "t" in s.resources && "a" in s.operations;
    assert KeyOf(UserRequest().caller) == Some(KEY);
  }

  lemma TargetIsTerminal(s: Records)
    requires Steady(s, TYPES) && FailedAt(s, "t", "a")
    ensures Dependencies.Classify(s, TYPES, "t").DependencyTerminal?
  {
    hide Steady, Books, Links, Bound, ReconciledFor, ActiveFor;
    BooksOf(s, TYPES);
    ActiveIsLatest(s, TYPES, "t");
  }

  lemma GateSeesFailure(s: Records)
    requires Steady(s, TYPES) && UserIn(s)
    ensures EvaluateDependencies(s, TYPES, "s").Gated?
    ensures EvaluateDependencies(s, TYPES, "s").evaluation.kind.DependencyTerminal?
  {
    hide Steady, Dependencies.Classify, DistinctTargets;
    TargetIsTerminal(s);
    var edges := s.desired["s"];
    assert edges[..0] == [] && |edges| == 1 && edges[0].target == "t";
    OnlyTarget(edges);
    var ts := ClassifiedTargets(s, TYPES, ["t"]);
    assert ts == [Classified("t", DependencyTerminal)];
    OneTargetDecides(Classified("t", DependencyTerminal));
  }

  lemma OneTargetDecides(t: Classified)
    ensures JoinAll([t]) == t.kind
  {
    assert [t][..|[t]| - 1] == [];
  }

  lemma OnlyTarget(edges: seq<Edge>)
    requires |edges| == 1 && edges[0].target == "t"
    ensures DistinctTargets(edges) == ["t"]
  {
    assert edges[..0] == [];
    assert FirstTargets(edges) == ["t"];
  }

  lemma BlockIsSettled(s: Records, o: Operation, x: Execution, rec: Record) returns (n: Records)
    requires "s" in s.resources && s.resources["s"] == rec && !o.IsTerminal() && o.capability.Create?
    requires CellOk(TYPES, rec, o, UpdatesOf(s, "s"), "s" in s.driftSeen, PublishedOf(s, "s"))
    ensures SettleGateBlock(s, "s", o, x, DependencyTerminal, o.phaseChangedAt + 1) == Ok(n)
    ensures o.id in n.operations && n.operations[o.id].IsTerminal() && n.bindings == s.bindings
  {
    hide SetDependencyCondition, BuildFinishEvidence, Coherent, UpdatesOf, PublishedOf;
    var at := o.phaseChangedAt + 1;
    var w := World(rec.resource, rec.status, Some(o));
    NoteIsAccepted(w, Known(DependencyFailed), at);
    var noted := SetDependencyCondition(rec.status, CFalse, Known(DependencyFailed), "", at).value;
    var finish := GateFailure(DependencyTerminal);
    assert finish == Finish(false, DependencyFailedReason(), DependencyFailedMessage(), NO_FACTS);
    assert !IsSpace(DependencyFailedReason()[0]);
    OutcomeWithoutFacts(o, rec.resource, noted, finish, at);
    FinishedIdentity(o, rec.resource, noted, finish, at);
    FinishedIsTerminal(o, rec.resource, noted, finish, at);
    n := SettleGateBlock(s, "s", o, x, DependencyTerminal, at).value;
  }

  lemma NoteIsAccepted(w: World, why: Reason, at: Time)
    requires Coherent(w) && w.status.updatedAt <= at && !ReasonMissing(why)
    ensures SetDependencyCondition(w.status, CFalse, why, "", at).Ok?
    ensures SetDependencyCondition(w.status, CFalse, why, "", at).value.updatedAt == at
    ensures Coherent(w.(status := SetDependencyCondition(w.status, CFalse, why, "", at).value))
  {
    hide Coherent, SetCondition;
    DependencyKeepsCoherent(w, DoDependency(CFalse, why, "", at));
  }

  lemma OutcomeWithoutFacts(o: Operation, r: Resource, s: ResourceStatus, finish: Finish, at: Time)
    requires Coherent(World(r, s, Some(o))) && !o.IsTerminal() && s.updatedAt <= at
    requires !finish.succeeded && !Blank(finish.reason) && finish.facts == NO_FACTS
    ensures BuildFinishEvidence(o, r, s, finish, at).Ok?
  {
    hide Coherent, EngineOutcome;
    EngineOutcomeAccepts(o, r, s, finish, at);
  }

  /** The third drive reaches the gate, which ends the operation. */
  lemma GateRefuses(s: Records) returns (n: Records)
    requires Steady(s, TYPES) && UserIn(s) && Working(s, "s", "c", Planning) && Untouched(s.executions["c"])
    ensures n == Done(s, TYPES, DriveOf("c")) && IsOver(n, "c") && KEY in n.bindings && n.bindings[KEY].operationID == "c"
  {
    hide Steady, Invariant, CleanRows, EvaluateDependencies, CellOk, ContextFits, UpdatesOf, PublishedOf, DriveOperation, Done, Next,
         SettleGateBlock, Books, Links, Bound;
    BooksOf(s, TYPES);
    WorkInHand(s, TYPES, "c");
    GateSeesFailure(s);
    n := BlockIsSettled(s, s.operations["c"], s.executions["c"], s.resources["s"]);
    DriveIsBlocked(s, "c");
    NextOfDrive(s, TYPES, "c");
  }

  lemma DriveIsBlocked(s: Records, oid: OperationID)
    requires Working(s, "s", oid, Planning) && "s" in s.resources && Untouched(s.executions[oid])
    requires EvaluateDependencies(s, TYPES, "s").Gated? && EvaluateDependencies(s, TYPES, "s").evaluation.kind.DependencyTerminal?
    ensures DriveOperation(s, TYPES, oid) ==
              SettleGateBlock(s, "s", s.operations[oid], s.executions[oid], DependencyTerminal, s.operations[oid].phaseChangedAt + 1)
  {
    hide AdvanceThrough, EvaluateDependencies, SettleGateBlock;
  }

  // ----------------------------------------------------------------------- the ten deeds

  /** The run is reliable, its gate fails the user's create, and the key is bound to it. */
  ghost predicate EndsAtGate(s: Records, ds: seq<Deed>) {
    hide Done;
    && AllReliable(s, TYPES, ds) && FailedByGate(s, TYPES, ds, "c")
    && KEY in Perform(s, TYPES, ds).bindings && Perform(s, TYPES, ds).bindings[KEY].operationID == "c"
  }

  lemma Earlier(s: Records, d: Deed, n: Records, rest: seq<Deed>) returns (ds: seq<Deed>)
    requires n == Done(s, TYPES, d) && Reliable(s, d) && EndsAtGate(n, rest)
    ensures ds == [d] + rest && EndsAtGate(s, ds)
  {
    hide Done, Reliable;
    ds := [d] + rest;
    assert ds[1..] == rest;
  }

  lemma LastDeed(s: Records, n: Records) returns (ds: seq<Deed>)
    requires n == Done(s, TYPES, DriveOf("c")) && !IsOver(s, "c") && IsOver(n, "c")
    requires KEY in n.bindings && n.bindings[KEY].operationID == "c"
    ensures ds == [DriveOf("c")] && EndsAtGate(s, ds)
  {
    hide Done;
    ds := [DriveOf("c")];
    assert ds[1..] == [];
  }

  lemma UserIsRefused(s: Records) returns (ds: seq<Deed>)
    requires Steady(s, TYPES) && Solo(s) && FailedAt(s, "t", "a")
    ensures |ds| == 4 && EndsAtGate(s, ds)
  {
    hide Steady, Done, EndsAtGate, UserIn, Solo, FailedAt, EvaluateDependencies, OnlyWorked, Untouched;
    var s1 := UserBegins(s);
    var s2 := DriveAdvances(s1, TYPES, "s", "c", Requested, Validating);
    UserStays(s1, s2);
    var s3 := DriveAdvances(s2, TYPES, "s", "c", Validating, Planning);
    UserStays(s2, s3);
    var s4 := GateRefuses(s3);
    ds := LastDeed(s3, s4);
    ds := Earlier(s2, DriveOf("c"), s3, ds);
    ds := Earlier(s1, DriveOf("c"), s2, ds);
    ds := Earlier(s, Requests(DoCreate(UserRequest())), s1, ds);
  }

  /** From the empty records: a create that fails, a create that uses it under a key, and
      that key answered with an error from then on. */
  lemma GateFailsForGood() returns (ds: seq<Deed>)
    ensures |ds| == 10 && AllReliable(EMPTY, TYPES, ds)
    ensures var n := Perform(EMPTY, TYPES, ds);
            && KEY in n.bindings && n.bindings[KEY].operationID == "c" && FailedByGate(EMPTY, TYPES, ds, "c")
            && Replay(n, Some(KEY), n.bindings[KEY].fingerprint, n.bindings[KEY].kind) == Err(EvidenceRejected)
  {
    hide Steady, Done, Solo, FailedAt, Replay, AllReliable, FailedByGate, Perform, WaitsOutdated, Reliable;
    var d1, s1 := TargetBegins();
    var s2, s3, s4 := TargetIsDriven(s1);
    var s5, s6 := TargetFails(s4);
    ds := UserIsRefused(s6);
    DrivesAreReliable(EMPTY, d1);
    DrivesAreReliable(s1, DriveOf("a"));
    DrivesAreReliable(s2, DriveOf("a"));
    DrivesAreReliable(s3, DriveOf("a"));
    DrivesAreReliable(s4, Claims("a", ""));
    ds := Earlier(s5, Reported("a"), s6, ds);
    ds := Earlier(s4, Claims("a", ""), s5, ds);
    ds := Earlier(s3, DriveOf("a"), s4, ds);
    ds := Earlier(s2, DriveOf("a"), s3, ds);
    ds := Earlier(s1, DriveOf("a"), s2, ds);
    ds := Earlier(EMPTY, d1, s1, ds);
    EveryKeyReplays(TYPES, ds, KEY);
  }

  lemma DrivesAreReliable(s: Records, d: Deed)
    requires !d.Submits? && !d.Looks?
    ensures Reliable(s, d)
  {
  }
}
