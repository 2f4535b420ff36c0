/** Driving and observing: when the workers' remaining steps are taken, and what they write. */
module StepMeaning {
  import opened AdmissionFacts
  import opened AdmissionRules
  import opened Basics
  import opened Convergence
  import opened ConvergenceFacts
  import opened Dependencies
  import opened Domain
  import opened Drive
  import opened EngineRules
  import opened EvidenceMeaning
  import opened FinishFacts
  import opened Finishing
  import opened GateDecisions
  import opened Lifecycle
  import opened LifecycleRuns
  import opened Provisioning
  import opened Readings
  import opened StatusStory
  import opened Store
  import opened WorkMeaning

  // --------------------------------------------------------------------- driving

  /** The backend may be asked from here on. */
  predicate Final(next: Phase) {
    next == Applying || next == Destroying
  }

  /** The execution may enter the phase: a final one only before its first attempt, and the
      recovery of outputs only where outputs are pending. */
  predicate MayEnter(x: Execution, next: Phase) {
    Final(next) ==>
      && x.currentAttempt == 0
      && (x.intent.recoverySource.Some? ==>
            next == Applying && x.intent.capability != Delete && x.state == AttemptSucceeded && x.outputs.resolution == ResolutionPending)
  }

  /** Entering a final phase opens the first attempt, or asks for the outputs once more. */
  function Entered(x: Execution, next: Phase): Execution {
    if !Final(next) then x
    else if x.intent.recoverySource.Some? then x.(nextObservation := Later(1, x.nextObservation) + 1)
    else x.(currentAttempt := 1)
  }

  lemma ReleasedExactly(x: Execution, next: Phase)
    ensures Released(x, next).Ok? <==> MayEnter(x, next)
    ensures Released(x, next).Ok? ==> Released(x, next).value == Entered(x, next)
  {
  }

  function Advanced(o: Operation, next: Phase): Operation {
    o.(state := OpRunning, phase := next, phaseChangedAt := o.phaseChangedAt + 1,
       startedAt := if o.state == OpPending then o.phaseChangedAt + 1 else o.startedAt)
  }

  lemma DependencyNoted(s: ResourceStatus, o: Operation, r: Resource, status: ConditionStatus, why: ReasonCode, at: Time)
    requires Coherent(World(r, s, Some(o))) && s.updatedAt <= at && !status.CInvalid?
    ensures var noted := SetDependencyCondition(s, status, Known(why), "", at);
            && noted.Ok? && noted.value.state == s.state && noted.value.updatedAt == at
            && Coherent(World(r, noted.value, Some(o)))
  {
    hide Coherent, Upsert, StatusWellFormed;
    DependencyKeepsCoherent(World(r, s, Some(o)), DoDependency(status, Known(why), "", at));
    NotedKeeps(s, status, Known(why), at);
  }

  lemma NotedKeeps(s: ResourceStatus, status: ConditionStatus, why: Reason, at: Time)
    ensures var noted := SetDependencyCondition(s, status, why, "", at);
            noted.Ok? ==> noted.value.state == s.state && noted.value.updatedAt == at
  {
    hide Upsert, StatusWellFormed;
  }

  lemma AdvanceTaken(s: Records, c: Catalog, o: Operation, next: Phase, gated: bool)
    requires Invariant(s, c) && o.id in s.operations && s.operations[o.id] == o && !o.IsTerminal() && o.id in s.executions
    requires o.resourceID in s.resources
    ensures var r := AdvanceThrough(s, o.resourceID, o, s.executions[o.id], next, gated, o.phaseChangedAt + 1);
            && (r.Ok? <==> Following(o) == Some(next) && MayEnter(s.executions[o.id], next))
            && (r.Ok? ==>
                  && OnlyMoves(s, r.value, o.resourceID, Advanced(o, next), Entered(s.executions[o.id], next))
                  && r.value.resources[o.resourceID].status.state == s.resources[o.resourceID].status.state
                  && (!gated ==> SameDependencies(s, r.value, o.resourceID))
                  && r.value.desired == s.desired && r.value.applied == s.applied && r.value.outputs == s.outputs && r.value.driftSeen == s.driftSeen)
  {
    hide Invariant, Coherent, Advance, SetDependencyCondition, InternalEventID, TransitionLabel, Released, MayEnter, Entered, Following, InHand, Blank,
         FindCondition;
    var id, at, x := o.resourceID, o.phaseChangedAt + 1, s.executions[o.id];
    WorkIsCoherent(s, c, o.id);
    var rec := s.resources[id];
    var w := World(rec.resource, rec.status, Some(o));
    var event := InternalEventID(o.id, TransitionLabel(next));
    AdvanceAcceptedExactly(w, next, event, at);
    ReleasedExactly(x, next);
    var moved := Advance(rec.resource, rec.status, o, next, event, at);
    if moved.Ok? {
      AdvanceKeepsCoherent(w, DoAdvance(next, event, at));
      StepsWriteOnce(w, DoAdvance(next, event, at), World(rec.resource, moved.value.status, Some(moved.value.operation)));
      DependencyNoted(moved.value.status, moved.value.operation, rec.resource, CTrue, DependenciesSatisfied, at);
    }
  }

  lemma BlockTaken(s: Records, c: Catalog, o: Operation, kind: DependencyClass)
    requires Invariant(s, c) && o.id in s.operations && s.operations[o.id] == o && !o.IsTerminal() && o.id in s.executions
    requires o.resourceID in s.resources
    ensures SettleGateBlock(s, o.resourceID, o, s.executions[o.id], kind, o.phaseChangedAt + 1).Ok?
  {
    hide Invariant, Coherent, SetDependencyCondition, BuildFinishEvidence, InHand, Carries, BlockReason, EndReason;
    var at := o.phaseChangedAt + 1;
    WorkIsCoherent(s, c, o.id);
    var rec := s.resources[o.resourceID];
    DependencyNoted(rec.status, o, rec.resource, CFalse, BlockReason(kind), at);
    var noted := SetDependencyCondition(rec.status, CFalse, Known(BlockReason(kind)), "", at).value;
    FinishAcceptedExactly(o, rec.resource, noted, GateFailure(kind), at);
    NoCancel(World(rec.resource, rec.status, Some(o)));
    GateFailureSays(kind);
    ReasonsSay(kind);
  }

  lemma ReasonsSay(kind: DependencyClass)
    ensures !Blank(EndReason(kind)) && !Carries(GateFailure(kind))
  {
    assert !IsSpace(EndReason(kind)[0]);
  }

  /** A drive is taken exactly of an operation in progress that has a phase to enter, when
      its execution may enter it; at the gate this never depends on what the gate says. */
  lemma DriveTakenExactly(s: Records, c: Catalog, oid: OperationID)
    requires Invariant(s, c)
    ensures DriveOperation(s, c, oid).Ok? <==>
              && oid in s.operations && !s.operations[oid].IsTerminal() && oid in s.executions
              && Following(s.operations[oid]).Some? && MayEnter(s.executions[oid], Following(s.operations[oid]).value)
  {
    hide Invariant, AdvanceThrough, SettleGateBlock, EvaluateDependencies, MayEnter, Coherent, InHand;
    if oid in s.operations && !s.operations[oid].IsTerminal() {
      WorkIsCoherent(s, c, oid);
      var o, x := s.operations[oid], s.executions[oid];
      PhasesAgree(s, c, o);
      if NextPhase(o).Some? {
        var next := NextPhase(o).value;
        AdvanceTaken(s, c, o, next, false);
        AdvanceTaken(s, c, o, next, true);
        if next.Applying? && !o.capability.Delete? && x.currentAttempt == 0 && !x.IsOutputRecovery() {
          GateIsOpenTo(s, c, o, x, next);
          GateAnswers(s, c, o.resourceID);
          var gate := EvaluateDependencies(s, c, o.resourceID);
          if gate.Gated? {
            BlockTaken(s, c, o, gate.evaluation.kind);
          }
        }
      }
    }
  }

  /** Every refusal to drive names its cause. */
  lemma DriveRefused(s: Records, c: Catalog, oid: OperationID)
    requires Invariant(s, c)
    ensures var r := DriveOperation(s, c, oid);
            && (r == Err(NoSuchWork) <==> oid !in s.operations)
            && (r == Err(StaleWork) <==> oid in s.operations && s.operations[oid].IsTerminal())
            && (r == Err(NotDrivable) <==> oid in s.operations && !s.operations[oid].IsTerminal() && Final(s.operations[oid].phase))
            && (r == Err(ConflictingWork) <==> EntersFinal(s, oid) && s.executions[oid].currentAttempt != 0)
            && (r == Err(InvalidRecovery) <==>
                  EntersFinal(s, oid) && s.executions[oid].currentAttempt == 0 && !MayEnter(s.executions[oid], Following(s.operations[oid]).value))
  {
    hide Invariant, AdvanceThrough, SettleGateBlock, EvaluateDependencies, Coherent, InHand, ContextFits;
    if oid in s.operations {
      Named(s, c, oid);
      ContextOf(s, c, s.operations[oid]);
    }
    if oid in s.operations && !s.operations[oid].IsTerminal() {
      WorkIsCoherent(s, c, oid);
      var o, x := s.operations[oid], s.executions[oid];
      PhasesAgree(s, c, o);
      NoCancel(World(s.resources[o.resourceID].resource, s.resources[o.resourceID].status, Some(o)));
      PhaseIsKnown(World(s.resources[o.resourceID].resource, s.resources[o.resourceID].status, Some(o)));
      if NextPhase(o).Some? {
        var next := NextPhase(o).value;
        AdvanceErrors(s, c, o, next, false);
        AdvanceErrors(s, c, o, next, true);
        if next.Applying? && !o.capability.Delete? && x.currentAttempt == 0 && !x.IsOutputRecovery() {
          GateIsOpenTo(s, c, o, x, next);
          GateAnswers(s, c, o.resourceID);
          var gate := EvaluateDependencies(s, c, o.resourceID);
          if gate.Gated? {
            BlockTaken(s, c, o, gate.evaluation.kind);
          }
        }
      }
    }
  }

  /** The operation goes on, and the phase it enters next is the final one. */
  predicate EntersFinal(s: Records, oid: OperationID) {
    && oid in s.operations && oid in s.executions && !s.operations[oid].IsTerminal()
    && Following(s.operations[oid]).Some? && Final(Following(s.operations[oid]).value)
  }

  lemma PhaseIsKnown(w: World)
    requires Coherent(w) && w.latest.Some?
    ensures !w.latest.value.phase.PhaseInvalid?
  {
  }

  lemma AdvanceErrors(s: Records, c: Catalog, o: Operation, next: Phase, gated: bool)
    requires Invariant(s, c) && o.id in s.operations && s.operations[o.id] == o && !o.IsTerminal() && o.id in s.executions
    requires o.resourceID in s.resources
    ensures var x, r := s.executions[o.id], AdvanceThrough(s, o.resourceID, o, s.executions[o.id], next, gated, o.phaseChangedAt + 1);
            if Following(o) != Some(next) then r.Err? && r.error.EngineStopped?
            else if MayEnter(x, next) then r.Ok?
            else r == Err(if x.currentAttempt != 0 then ConflictingWork else InvalidRecovery)
  {
    hide Invariant, Coherent, Advance, SetDependencyCondition, InternalEventID, TransitionLabel, Following, InHand, Blank;
    var id, at, x := o.resourceID, o.phaseChangedAt + 1, s.executions[o.id];
    WorkIsCoherent(s, c, o.id);
    var rec := s.resources[id];
    var w := World(rec.resource, rec.status, Some(o));
    var event := InternalEventID(o.id, TransitionLabel(next));
    AdvanceAcceptedExactly(w, next, event, at);
    var moved := Advance(rec.resource, rec.status, o, next, event, at);
    if moved.Ok? {
      AdvanceKeepsCoherent(w, DoAdvance(next, event, at));
      DependencyNoted(moved.value.status, moved.value.operation, rec.resource, CTrue, DependenciesSatisfied, at);
    }
  }

  lemma PhasesAgree(s: Records, c: Catalog, o: Operation)
    requires Invariant(s, c) && o.id in s.operations && s.operations[o.id] == o && !o.IsTerminal()
    ensures Following(o).Some? ==> NextPhase(o) == Following(o)
    ensures NextPhase(o) == Some(Applying) && !o.capability.Delete? ==> Following(o) == Some(Applying)
  {
    hide Invariant, Coherent, InHand;
    WorkIsCoherent(s, c, o.id);
    var w := World(s.resources[o.resourceID].resource, s.resources[o.resourceID].status, Some(o));
    PhaseTellsState(w);
    NoCancel(w);
  }

  lemma GateIsOpenTo(s: Records, c: Catalog, o: Operation, x: Execution, next: Phase)
    requires next == Applying && x.currentAttempt == 0 && x.intent.recoverySource.None?
    ensures MayEnter(x, next)
  {
  }

  /** Away from the gate a drive is one phase change, one instant after the last one. */
  lemma DriveWrites(s: Records, c: Catalog, oid: OperationID, n: Records)
    requires Invariant(s, c) && DriveOperation(s, c, oid) == Ok(n) && !AtGate(s, oid)
    ensures oid in s.operations && oid in s.executions && Following(s.operations[oid]).Some?
    ensures var o, next := s.operations[oid], Following(s.operations[oid]).value;
            && OnlyMoves(s, n, o.resourceID, Advanced(o, next), Entered(s.executions[oid], next))
            && n.resources[o.resourceID].status.state == s.resources[o.resourceID].status.state && SameDependencies(s, n, o.resourceID)
            && n.desired == s.desired && n.applied == s.applied && n.outputs == s.outputs && n.driftSeen == s.driftSeen
  {
    hide Invariant, AdvanceThrough, SettleGateBlock, EvaluateDependencies, MayEnter, Coherent, InHand, OnlyMoves, Entered, Advanced, SameDependencies;
    WorkIsCoherent(s, c, oid);
    var o, x := s.operations[oid], s.executions[oid];
    PhasesAgree(s, c, o);
    AdvanceTaken(s, c, o, NextPhase(o).value, false);
    NoCancel(World(s.resources[o.resourceID].resource, s.resources[o.resourceID].status, Some(o)));
  }

  // ------------------------------------------------------------------- observing

  /** The status a passive report leaves: readiness and drift as reported, and the state
      between Ready and Unknown unless the resource failed or is gone. */
  predicate StatusReported(before: ResourceStatus, after: ResourceStatus, f: ObservedFacts, at: Time) {
    && after.resourceID == before.resourceID && after.observedGeneration == before.observedGeneration && after.updatedAt == at
    && FindCondition(after.conditions, CondDrifted) == Some(DriftReported(f, before.observedGeneration, at))
    && FindCondition(after.conditions, CondReady) ==
         ReadinessReported(f, FindCondition(before.conditions, CondReady), before.observedGeneration, at)
    && after.state == if before.state in {RsDeleted, RsFailed} then before.state
                      else if f.presence == Present && f.readiness == FactReady then RsReady
                      else if f.presence == PresenceNotFound || f.readiness == FactNotReady then RsUnknown
                      else before.state
  }

  /** A report about a resource at rest that is not older than its records is taken exactly
      when it reads, and writes the status alone; one that comes too late or while an
      operation is in progress is dropped. */
  lemma ObservationTakenExactly(s: Records, c: Catalog, id: ResourceID, f: ObservedFacts, at: Time)
    requires Invariant(s, c) && id in s.resources
    ensures var rec := s.resources[id];
            var dropped := at < rec.resource.updatedAt || at < rec.status.updatedAt || !AtRest(WorldOf(s, id));
            var r := PassiveObserve(s, id, f, at);
            && (r.Ok? <==> dropped || FactsValid(f))
            && (dropped ==> r == Ok(s))
            && (r.Ok? && !dropped ==>
                  && id in r.value.resources
                  && StatusReported(rec.status, r.value.resources[id].status, f, at)
                  && r.value == s.(resources := s.resources[id := rec.(status := r.value.resources[id].status)],
                                   driftSeen := if f.drift == Drifted then s.driftSeen + {id} else s.driftSeen))
  {
    hide Invariant, Coherent, ActiveFor, ObserveWith, StatusReported, DriftAfter, FactsValid;
    WorldIsCoherent(s, c, id);
    var rec, w := s.resources[id], WorldOf(s, id);
    ObserveAcceptedExactly(w, f, true, at);
    SetTimes(w);
    if FactsValid(f) {
      SeenDrift(s, id, f, false);
      var seen := ApplyObservation(rec.resource, rec.status, f, at);
      if seen.Ok? {
        ReportIsWritten(w, f, at, seen.value);
      }
    }
  }

  lemma ReportIsWritten(w: World, f: ObservedFacts, at: Time, n: ResourceStatus)
    requires Coherent(w) && FactsValid(f) && ApplyObservation(w.resource, w.status, f, at) == Ok(n)
    ensures StatusReported(w.status, n, f, at)
  {
    hide ObservedConditions, FindCondition, DriftReported, ReadinessReported, StatusWellFormed, Agreement, OperationFits, Holds;
    ObserveWrites(w.status, f, at);
    ObserveAcceptedExactly(w, f, true, at);
  }
}
