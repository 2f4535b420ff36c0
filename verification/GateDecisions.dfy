/** What the dependency gate does to the operation it holds: it lets it pass, makes it
    wait, or ends it, each for reasons found in the histories of its targets. */
module GateDecisions {
  import opened AdmissionFacts
  import opened Basics
  import opened Convergence
  import opened ConvergenceFacts
  import opened Dependencies
  import opened Domain
  import opened Drive
  import opened Finishing
  import opened Graph
  import opened Lifecycle
  import opened Ordering
  import opened Provisioning
  import opened References
  import opened Store

  /** A create or update about to enter Applying for the first time, with an execution that
      is no recovery of outputs and was never asked of the backend. */
  predicate AtGate(s: Records, oid: OperationID) {
    && oid in s.operations && oid in s.executions && s.operations[oid].resourceID in s.resources
    && s.operations[oid].state.OpRunning? && s.operations[oid].phase.Planning? && !s.operations[oid].capability.Delete?
    && s.executions[oid].currentAttempt == 0 && s.executions[oid].intent.recoverySource.None?
  }

  /** The desired targets of a resource, classified in the order the gate meets them. */
  ghost function TargetsOf(s: Records, c: Catalog, id: ResourceID): seq<Classified>
    requires forall t :: Targets(EdgesAt(s.desired, id), t) ==> t in s.resources
  {
    TargetsAreDistinctTargets(EdgesAt(s.desired, id));
    ClassifiedTargets(s, c, DistinctTargets(EdgesAt(s.desired, id)))
  }

  lemma TargetsExist(s: Records, c: Catalog, id: ResourceID)
    requires Links(s, c)
    ensures forall t :: Targets(EdgesAt(s.desired, id), t) ==> t in s.resources
  {
    hide Acyclic, DesiredGraph;
    if id in s.desired {
      assert RowsOk(s, c, id, s.desired[id], s.resources[id].resource.generation);
    }
  }

  // ------------------------------------------------------------- what was decided

  /** The dependency condition that a decision writes. */
  predicate Notes(s: Records, n: Records, oid: OperationID, status: ConditionStatus, why: ReasonCode) {
    && oid in s.operations && s.operations[oid].resourceID in s.resources && s.operations[oid].resourceID in n.resources
    && var id := s.operations[oid].resourceID;
    FindCondition(n.resources[id].status.conditions, CondDependenciesReady) ==
      Some(Condition(CondDependenciesReady, status, Known(why), "", s.resources[id].status.observedGeneration,
                     s.operations[oid].phaseChangedAt + 1))
  }

  /** The dependency condition of the resource is what it was. */
  predicate SameDependencies(s: Records, n: Records, id: ResourceID) {
    && id in s.resources && id in n.resources
    && FindCondition(n.resources[id].status.conditions, CondDependenciesReady) == FindCondition(s.resources[id].status.conditions, CondDependenciesReady)
  }

  /** The operation enters Applying and its first attempt is due. */
  predicate Passes(s: Records, n: Records, oid: OperationID) {
    && oid in s.operations && oid in n.operations && oid in s.executions && oid in n.executions
    && n.operations[oid] == s.operations[oid].(phase := Applying, phaseChangedAt := s.operations[oid].phaseChangedAt + 1)
    && n.executions[oid] == s.executions[oid].(currentAttempt := 1)
  }

  /** No operation and no execution changes. */
  predicate Waits(s: Records, n: Records) {
    n.operations == s.operations && n.executions == s.executions
  }

  /** The operation fails for good, before the backend was ever asked. */
  predicate Ends(s: Records, n: Records, oid: OperationID, reason: string, message: string) {
    && oid in s.operations && oid in n.operations && oid in s.executions && oid in n.executions
    && n.operations[oid] == s.operations[oid].(state := OpFailed, completedAt := s.operations[oid].phaseChangedAt + 1,
                                               failure := Some(Failure(reason, message)))
    && n.executions[oid] == s.executions[oid].(state := AttemptFailed, correlation := CorrUnknown, acceptanceConfirmed := false)
  }

  lemma NotedConditions(s: ResourceStatus, status: ConditionStatus, why: Reason, at: Time, n: ResourceStatus)
    requires SetDependencyCondition(s, status, why, "", at) == Ok(n)
    ensures FindCondition(n.conditions, CondDependenciesReady) ==
              Some(Condition(CondDependenciesReady, status, why, "", s.observedGeneration, at))
    ensures n.observedGeneration == s.observedGeneration
  {
    hide StatusWellFormed, Upsert;
  }

  lemma PassIsRecorded(s: Records, id: ResourceID, o: Operation, x: Execution, gated: bool, n: Records)
    requires id in s.resources && AdvanceThrough(s, id, o, x, Applying, gated, o.phaseChangedAt + 1) == Ok(n)
    requires o.state.OpRunning? && x.currentAttempt == 0 && x.intent.recoverySource.None?
    ensures o.id in n.operations && n.operations[o.id] == o.(phase := Applying, phaseChangedAt := o.phaseChangedAt + 1)
    ensures o.id in n.executions && n.executions[o.id] == x.(currentAttempt := 1)
    ensures id in n.resources
    ensures !gated ==>
              FindCondition(n.resources[id].status.conditions, CondDependenciesReady) == FindCondition(s.resources[id].status.conditions, CondDependenciesReady)
    ensures gated ==>
              FindCondition(n.resources[id].status.conditions, CondDependenciesReady) ==
                Some(Condition(CondDependenciesReady, CTrue, Known(DependenciesSatisfied), "", s.resources[id].status.observedGeneration, o.phaseChangedAt + 1))
  {
    hide SetDependencyCondition, StatusWellFormed, Upsert, InternalEventID, TransitionLabel, FindCondition;
    var rec, at := s.resources[id], o.phaseChangedAt + 1;
    var moved := Advance(rec.resource, rec.status, o, Applying, InternalEventID(o.id, TransitionLabel(Applying)), at).value;
    AdvanceNotesNothing(rec.resource, rec.status, o, InternalEventID(o.id, TransitionLabel(Applying)), at, moved);
    if gated {
      NotedConditions(moved.status, CTrue, Known(DependenciesSatisfied), at,
                      SetDependencyCondition(moved.status, CTrue, Known(DependenciesSatisfied), "", at).value);
    }
  }

  lemma AdvanceNotesNothing(r: Resource, s: ResourceStatus, o: Operation, event: EventID, at: Time, t: Transition)
    requires Advance(r, s, o, Applying, event, at) == Ok(t)
    ensures FindCondition(t.status.conditions, CondDependenciesReady) == FindCondition(s.conditions, CondDependenciesReady)
  {
    hide StatusWellFormed, Upsert, ByKind, ActiveCapability;
  }

  lemma BlockIsRecorded(s: Records, id: ResourceID, o: Operation, x: Execution, kind: DependencyClass, n: Records)
    requires id in s.resources && SettleGateBlock(s, id, o, x, kind, o.phaseChangedAt + 1) == Ok(n)
    requires kind.DependencyWaiting?
    ensures n.operations == s.operations && n.executions == s.executions && id in n.resources
    ensures FindCondition(n.resources[id].status.conditions, CondDependenciesReady) ==
              Some(Condition(CondDependenciesReady, CFalse, Known(WaitingForDependencies), "", s.resources[id].status.observedGeneration, o.phaseChangedAt + 1))
  {
    hide SetDependencyCondition, BuildFinishEvidence, FindCondition;
    var at := o.phaseChangedAt + 1;
    NotedConditions(s.resources[id].status, CFalse, Known(BlockReason(kind)), at,
                    SetDependencyCondition(s.resources[id].status, CFalse, Known(BlockReason(kind)), "", at).value);
  }

  function EndReason(kind: DependencyClass): string {
    if kind.DependencyTerminal? then "DependencyFailed" else "DependencyInvalid"
  }

  function EndMessage(kind: DependencyClass): string {
    if kind.DependencyTerminal? then "a referenced dependency failed and has no active recovery"
    else "a referenced dependency is unavailable or being deleted"
  }

  lemma EndIsRecorded(s: Records, id: ResourceID, o: Operation, x: Execution, kind: DependencyClass, n: Records)
    requires id in s.resources && SettleGateBlock(s, id, o, x, kind, o.phaseChangedAt + 1) == Ok(n)
    requires kind.DependencyTerminal? || kind.DependencyBroken?
    ensures o.id in n.operations && o.id in n.executions && id in n.resources
    ensures n.operations[o.id] == o.(state := OpFailed, completedAt := o.phaseChangedAt + 1, failure := Some(Failure(EndReason(kind), EndMessage(kind))))
    ensures n.executions[o.id] == x.(state := AttemptFailed, correlation := CorrUnknown, acceptanceConfirmed := false)
    ensures FindCondition(n.resources[id].status.conditions, CondDependenciesReady) ==
              Some(Condition(CondDependenciesReady, CFalse, Known(if kind.DependencyTerminal? then DependencyFailed else DependencyInvalid), "",
                             s.resources[id].status.observedGeneration, o.phaseChangedAt + 1))
  {
    hide SetDependencyCondition, BuildFinishEvidence, FindCondition, EndReason, EndMessage;
    var at := o.phaseChangedAt + 1;
    var rec := s.resources[id];
    var noted := SetDependencyCondition(rec.status, CFalse, Known(BlockReason(kind)), "", at).value;
    NotedConditions(rec.status, CFalse, Known(BlockReason(kind)), at, noted);
    GateFailureSays(kind);
    EndKeepsNote(o, rec.resource, noted, GateFailure(kind), at, BuildFinishEvidence(o, rec.resource, noted, GateFailure(kind), at).value);
  }

  lemma GateFailureSays(kind: DependencyClass)
    ensures GateFailure(kind) == Finish(false, EndReason(kind), EndMessage(kind), ObservedFacts(PresenceUnset, ReadinessUnset, DriftUnset))
  {
  }

  lemma EndKeepsNote(o: Operation, r: Resource, s: ResourceStatus, finish: Finish, at: Time, t: Transition)
    requires !finish.succeeded && finish.facts == NO_FACTS && BuildFinishEvidence(o, r, s, finish, at) == Ok(t)
    ensures t.operation == o.(state := OpFailed, completedAt := at, failure := Some(Failure(finish.reason, finish.message)))
    ensures FindCondition(t.status.conditions, CondDependenciesReady) == FindCondition(s.conditions, CondDependenciesReady)
  {
    hide StatusWellFormed, Upsert, ByKind, InternalEventID;
  }

  // ------------------------------------------------------------------ the decision

  lemma GateSees(s: Records, c: Catalog, id: ResourceID)
    requires Invariant(s, c) && id in s.resources
    ensures forall t :: Targets(EdgesAt(s.desired, id), t) ==> t in s.resources
    ensures id !in s.desired ==> EvaluateDependencies(s, c, id).NotGated?
    ensures id in s.desired ==>
              && EvaluateDependencies(s, c, id).Gated?
              && EvaluateDependencies(s, c, id).evaluation.kind == JoinAll(TargetsOf(s, c, id))
  {
    hide Books, Bound, Links, Classify, JoinAll, NotReady, DistinctTargets;
    InvariantParts(s, c);
    TargetsExist(s, c, id);
    GateAnswers(s, c, id);
  }

  /** In every reachable state, when an operation at the gate is driven: it passes if it has
      no targets or all of them are ready; it ends as DependencyInvalid or
      DependencyFailed exactly if a broken or, failing that, a failed target has no
      waiting one behind it; and otherwise it waits. The condition on its resource says which. */
  lemma GateDecides(s: Records, c: Catalog, oid: OperationID, n: Records)
    requires Invariant(s, c) && AtGate(s, oid) && DriveOperation(s, c, oid) == Ok(n)
    ensures forall t :: Targets(EdgesAt(s.desired, s.operations[oid].resourceID), t) ==> t in s.resources
    ensures var id := s.operations[oid].resourceID;
            var ts := TargetsOf(s, c, id);
            if id !in s.desired then Passes(s, n, oid) && SameDependencies(s, n, id)
            else if AllReady(ts) then Passes(s, n, oid) && Notes(s, n, oid, CTrue, DependenciesSatisfied)
            else if Uncovered(ts, DependencyBroken) then
              Ends(s, n, oid, EndReason(DependencyBroken), EndMessage(DependencyBroken)) && Notes(s, n, oid, CFalse, DependencyInvalid)
            else if Uncovered(ts, DependencyTerminal) then
              Ends(s, n, oid, EndReason(DependencyTerminal), EndMessage(DependencyTerminal)) && Notes(s, n, oid, CFalse, DependencyFailed)
            else Waits(s, n) && Notes(s, n, oid, CFalse, WaitingForDependencies)
  {
    hide Invariant, AdvanceThrough, SettleGateBlock, EvaluateDependencies, JoinAll, AllReady, Uncovered, TargetsOf, FindCondition, Targets, EndReason, EndMessage;
    var o, x := s.operations[oid], s.executions[oid];
    var id := o.resourceID;
    OperationKnowsItself(s, c, oid);
    GateSees(s, c, id);
    if id !in s.desired {
      PassIsRecorded(s, id, o, x, false, n);
    } else {
      var ts := TargetsOf(s, c, id);
      AnswerExactly(ts);
      ReadyExactlyWhenAllAre(ts);
      var kind := JoinAll(ts);
      match kind
      case DependencyReady => PassIsRecorded(s, id, o, x, true, n);
      case DependencyWaiting => BlockIsRecorded(s, id, o, x, kind, n);
      case _ => EndIsRecorded(s, id, o, x, kind, n);
    }
  }

  lemma OperationKnowsItself(s: Records, c: Catalog, oid: OperationID)
    requires Invariant(s, c) && oid in s.operations
    ensures s.operations[oid].id == oid
  {
    assert OperationOk(s, oid);
  }

  /** The target is being deleted or was, or it is in state Failed with nothing in progress. */
  ghost predicate Hopeless(s: Records, t: ResourceID) {
    && t in s.resources && LatestFor(s, t).Some?
    && (GoingOrGone(LatestFor(s, t).value) || (s.resources[t].status.state == RsFailed && ActiveFor(s, t).None?))
  }

  /** The gate ends an operation only over a hopeless target: one that is still being
      created or updated, or that drifted, never costs its dependents their operation. */
  lemma GateEndsOnlyOverHopeless(s: Records, c: Catalog, oid: OperationID, n: Records)
    requires Invariant(s, c) && AtGate(s, oid) && DriveOperation(s, c, oid) == Ok(n)
    requires oid in n.operations && n.operations[oid].IsTerminal()
    ensures exists e :: e in EdgesAt(s.desired, s.operations[oid].resourceID) && Hopeless(s, e.target)
  {
    hide Invariant, DriveOperation, AllReady, TargetsOf, FindCondition, Targets, Hopeless, Uncovered;
    var id := s.operations[oid].resourceID;
    GateDecides(s, c, oid, n);
    var ts := TargetsOf(s, c, id);
    var kind := if Uncovered(ts, DependencyBroken) then DependencyBroken else DependencyTerminal;
    UncoveredIsATarget(s, c, id, kind);
  }

  lemma SomeEdgeNames(edges: seq<Edge>, target: ResourceID)
    requires Targets(edges, target)
    ensures exists e :: e in edges && e.target == target
  {
    var i :| 0 <= i < |edges| && edges[i].target == target;
    assert edges[i] in edges;
  }

  lemma UncoveredIsATarget(s: Records, c: Catalog, id: ResourceID, kind: DependencyClass)
    requires Invariant(s, c) && id in s.resources && (kind.DependencyBroken? || kind.DependencyTerminal?)
    requires forall t :: Targets(EdgesAt(s.desired, id), t) ==> t in s.resources
    requires Uncovered(TargetsOf(s, c, id), kind)
    ensures exists e :: e in EdgesAt(s.desired, id) && Hopeless(s, e.target)
  {
    hide Invariant, Classify, Targets, DistinctTargets, ActiveFor, WaitFollows, GoingOrGone;
    var ts := TargetsOf(s, c, id);
    var i :| 0 <= i < |ts| && ts[i].kind == kind && !WaitFollows(ts, i);
    var t := DistinctTargets(EdgesAt(s.desired, id))[i];
    TargetsAreDistinctTargets(EdgesAt(s.desired, id));
    assert Targets(EdgesAt(s.desired, id), t);
    ClassesInHistory(s, c, t);
    assert Hopeless(s, t);
    SomeEdgeNames(EdgesAt(s.desired, id), t);
  }
}
