/** The recovery planner: which operator actions a snapshot makes safe, and exactly when. */
module Recovery {
  import opened Basics
  import opened Domain
  import opened Provisioning

  datatype WorkKind = Drive | Dispatch | Observe | PassiveObserve | WakeDependents

  datatype WorkState = WorkPending | WorkLeased | WorkCompleted | WorkDead

  datatype RecoveryState =
    | NoActionNeeded | SafeObserve | SafePassiveObserve | SafeRecoverDeadWork | AmbiguousWaitingEvidence
    | ManualInterventionNeeded | UnsupportedRepair | RecoveryTerminal | RecoverySuperseded

  datatype DiagnosticReason =
    | OperationTerminal | ExecutionRecordMissing | ExecutionNotObservable | ExecutionEvidencePending | AmbiguousExecution
    | ObservationInFlight | ResourceDeletedReason | ActiveOperationPresent | DeadDispatchPreSubmit | DeadDispatchViaObserve
    | RegistrationMissing | WorkAlreadyActive | WorkNotDead | OutputRecoveryPending | ManualInterventionRequired
    | DependencyBlocked | DeadWake

  datatype ActionKind = TriggerObserve | TriggerPassiveObserve | RecoverDeadWork

  datatype Assessment = Assessment(state: RecoveryState, reasons: seq<DiagnosticReason>, actions: seq<ActionKind>)

  predicate Allows(a: Assessment, action: ActionKind) {
    action in a.actions
  }

  /** What the planner may know of an execution. */
  datatype ExecutionSummary = ExecutionSummary(state: AttemptState, correlation: Correlation, resolution: OutputResolution)

  /** Only backend truth that is still outstanding can be observed. */
  predicate Observable(x: ExecutionSummary) {
    match x.state
    case AttemptUnknown | AttemptAccepted => true
    case AttemptSucceeded => x.resolution.ResolutionPending?
    case _ => false
  }

  predicate StateIsTerminal(s: OperationState) {
    s.OpSucceeded? || s.OpFailed? || s.OpCanceled?
  }

  datatype ObserveSnapshot = ObserveSnapshot(
    operationState: OperationState, execution: Option<ExecutionSummary>, activeObserve: bool, dependencyBlocked: bool, registered: bool)

  function PlanOperationObserve(s: ObserveSnapshot): Assessment {
    if StateIsTerminal(s.operationState) then Assessment(RecoveryTerminal, [OperationTerminal], [])
    else if s.execution.None? then Assessment(ManualInterventionNeeded, [ExecutionRecordMissing], [])
    else if !s.registered then Assessment(ManualInterventionNeeded, [RegistrationMissing], [])
    else
      var x := s.execution.value;
      if Observable(x) then
        var state := if x.correlation.CorrUnknown? then AmbiguousWaitingEvidence else SafeObserve;
        var reasons := (if x.correlation.CorrUnknown? then [AmbiguousExecution] else [])
                       + (if x.state.AttemptSucceeded? then [OutputRecoveryPending] else []);
        if s.activeObserve then Assessment(state, reasons + [ObservationInFlight], [])
        else Assessment(state, reasons, [TriggerObserve])
      else if x.state.AttemptFailed? then Assessment(ManualInterventionNeeded, [ExecutionEvidencePending], [])
      else if s.dependencyBlocked then Assessment(NoActionNeeded, [DependencyBlocked], [])
      else Assessment(NoActionNeeded, [ExecutionNotObservable], [])
  }

  datatype PassiveSnapshot = PassiveSnapshot(
    resourceState: ResourceState, activeOperation: bool, activePassiveObserve: bool, registered: bool)

  function PlanResourcePassiveObserve(s: PassiveSnapshot): Assessment {
    if s.resourceState.RsDeleted? then Assessment(UnsupportedRepair, [ResourceDeletedReason], [])
    else if !s.registered then Assessment(ManualInterventionNeeded, [RegistrationMissing], [])
    else if s.activeOperation then Assessment(NoActionNeeded, [ActiveOperationPresent], [])
    else if s.activePassiveObserve then Assessment(NoActionNeeded, [ObservationInFlight], [])
    else Assessment(SafePassiveObserve, [], [TriggerPassiveObserve])
  }

  /** What is known now about a dead row's aggregate; the row itself gives only its kind. */
  datatype DeadWorkSnapshot = DeadWorkSnapshot(
    kind: WorkKind, state: WorkState, target: DeadTarget, activeEquivalent: bool, superseded: bool, registered: bool)

  datatype DeadTarget =
    | OperationTarget(operationState: OperationState, execution: Option<ExecutionSummary>)
    | ResourceTarget(resourceState: ResourceState, activeOperation: bool)

  function PlanDeadOperationWork(s: DeadWorkSnapshot): Assessment
    requires s.target.OperationTarget?
  {
    if StateIsTerminal(s.target.operationState) then Assessment(RecoverySuperseded, [OperationTerminal], [])
    else if s.superseded then Assessment(RecoverySuperseded, [ManualInterventionRequired], [])
    else if (s.kind.Dispatch? || s.kind.Observe?) && s.target.execution.None? then Assessment(ManualInterventionNeeded, [ExecutionRecordMissing], [])
    else if !s.registered then Assessment(ManualInterventionNeeded, [RegistrationMissing], [])
    else if s.activeEquivalent && !s.kind.Dispatch? then Assessment(NoActionNeeded, [WorkAlreadyActive], [])
    else match s.kind
      case Dispatch =>
        var x := s.target.execution.value;
        if !Observable(x) then Assessment(ManualInterventionNeeded, [DeadDispatchPreSubmit, ManualInterventionRequired], [])
        else
          var reasons := [DeadDispatchViaObserve] + (if x.correlation.CorrUnknown? then [AmbiguousExecution] else []);
          if s.activeEquivalent then Assessment(NoActionNeeded, reasons + [ObservationInFlight], [])
          else Assessment(if x.correlation.CorrUnknown? then AmbiguousWaitingEvidence else SafeRecoverDeadWork, reasons, [RecoverDeadWork])
      case Observe =>
        if !Observable(s.target.execution.value) then Assessment(NoActionNeeded, [ExecutionNotObservable], [])
        else Assessment(SafeRecoverDeadWork, [], [RecoverDeadWork])
      case Drive => Assessment(SafeRecoverDeadWork, [], [RecoverDeadWork])
      case _ => Assessment(UnsupportedRepair, [ManualInterventionRequired], [])
  }

  function PlanDeadResourceWork(s: DeadWorkSnapshot): Assessment
    requires s.target.ResourceTarget?
  {
    if !s.kind.PassiveObserve? && !s.kind.WakeDependents? then Assessment(UnsupportedRepair, [ManualInterventionRequired], [])
    else if s.target.activeOperation then Assessment(NoActionNeeded, [ActiveOperationPresent], [])
    else if s.target.resourceState.RsDeleted? then Assessment(UnsupportedRepair, [ResourceDeletedReason], [])
    else if s.kind.WakeDependents? then
      if s.activeEquivalent then Assessment(NoActionNeeded, [WorkAlreadyActive], [])
      else Assessment(SafeRecoverDeadWork, [DeadWake], [RecoverDeadWork])
    else if !s.registered then Assessment(ManualInterventionNeeded, [RegistrationMissing], [])
    else if s.activeEquivalent then Assessment(NoActionNeeded, [WorkAlreadyActive], [])
    else Assessment(SafeRecoverDeadWork, [], [RecoverDeadWork])
  }

  function PlanDeadWorkRecovery(s: DeadWorkSnapshot): Assessment {
    if !s.state.WorkDead? then Assessment(NoActionNeeded, [WorkNotDead], [])
    else if s.target.OperationTarget? then PlanDeadOperationWork(s)
    else PlanDeadResourceWork(s)
  }

  /** An observation may be triggered exactly for a registered, observable execution of an
      operation in progress that nobody observes already. */
  lemma ObserveAllowedExactly(s: ObserveSnapshot)
    ensures Allows(PlanOperationObserve(s), TriggerObserve) <==>
              && !StateIsTerminal(s.operationState) && s.registered && !s.activeObserve
              && s.execution.Some? && Observable(s.execution.value)
    ensures !Allows(PlanOperationObserve(s), RecoverDeadWork) && !Allows(PlanOperationObserve(s), TriggerPassiveObserve)
  {
  }

  /** Dead work may be recovered exactly when its aggregate still needs it: no dead work of
      a finished operation, a deleted resource, or a later attempt or observation; no
      second active row; and, where the backend is asked, something to observe. */
  lemma RecoveryAllowedExactly(s: DeadWorkSnapshot)
    ensures Allows(PlanDeadWorkRecovery(s), RecoverDeadWork) <==>
              && s.state.WorkDead? && !s.activeEquivalent
              && (match s.target
                  case OperationTarget(state, execution) =>
                    && !StateIsTerminal(state) && !s.superseded && s.registered
                    && (s.kind.Drive? || ((s.kind.Dispatch? || s.kind.Observe?) && execution.Some? && Observable(execution.value)))
                  case ResourceTarget(state, active) =>
                    && !active && !state.RsDeleted?
                    && (s.kind.WakeDependents? || (s.kind.PassiveObserve? && s.registered)))
  {
  }
}
