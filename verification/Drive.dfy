/** Driving an admitted operation to the phase in which the backend may be asked. */
module Drive {
  import opened Basics
  import opened Domain
  import OperationRuns
  import opened Lifecycle
  import opened LifecycleFacts
  import opened LifecycleRuns

  function NextPhase(o: Operation): Option<Phase> {
    match o.phase
    case Requested => Some(Validating)
    case Validating => Some(if o.capability.Delete? then Destroying else Planning)
    case Planning => Some(Applying)
    case _ => None
  }

  function TransitionLabel(p: Phase): string {
    match p
    case Requested => "requested"
    case Validating => "validating"
    case Planning => "planning"
    case Applying => "applying"
    case Destroying => "destroying"
    case PhaseInvalid(text) => text
  }

  /** One phase change, one instant after the last one. */
  function DriveStep(w: World): Step
    requires w.latest.Some? && NextPhase(w.latest.value).Some?
  {
    var o := w.latest.value;
    var next := NextPhase(o).value;
    DoAdvance(next, InternalEventID(o.id, TransitionLabel(next)), o.phaseChangedAt + 1)
  }

  function FinalPhase(c: Capability): Phase {
    if c.Delete? then Destroying else Applying
  }

  /** How many phase changes bring a capability to its final phase. */
  function PhasesToCross(c: Capability): nat {
    if c.Delete? then 2 else 3
  }

  function PhaseAfter(c: Capability, n: nat): Phase
    requires n <= PhasesToCross(c)
  {
    if n == 0 then Requested
    else if n == 1 then Validating
    else if n == 2 && !c.Delete? then Planning
    else FinalPhase(c)
  }

  /** The operation has crossed exactly `n` phases, one instant each, since its request;
      the status may have been written up to the instant of the next change. */
  predicate OnSchedule(w: World, n: nat) {
    && Coherent(w) && w.latest.Some?
    && var o := w.latest.value;
    && n <= PhasesToCross(o.capability)
    && o.phase == PhaseAfter(o.capability, n)
    && (if n == 0 then o.state.OpPending? else o.state.OpRunning? && o.startedAt == o.requestedAt + 1)
    && o.phaseChangedAt == o.requestedAt + n
    && w.status.updatedAt <= o.phaseChangedAt + 1
  }

  lemma DriveStepStaysOnSchedule(w: World, n: nat)
    requires OnSchedule(w, n) && n < PhasesToCross(w.latest.value.capability)
    ensures NextPhase(w.latest.value).Some?
    ensures var r := Attempt(w, DriveStep(w));
            && r.Ok? && OnSchedule(r.value, n + 1)
            && r.value.resource == w.resource
            && r.value.latest.value == w.latest.value.(
                 state := OpRunning, phase := PhaseAfter(w.latest.value.capability, n + 1), startedAt := w.latest.value.requestedAt + 1,
                 phaseChangedAt := w.latest.value.requestedAt + n + 1)
            && r.value.status.updatedAt == r.value.latest.value.phaseChangedAt
  {
    hide Upsert, ByKind, UniqueKinds, ConditionsFit, InternalEventID, TransitionLabel;
    var step := DriveStep(w);
    FitsLater(w.status.conditions, w.status.observedGeneration, w.status.updatedAt, w.status.observedGeneration, step.at);
    AdvanceKeepsCoherent(w, step);
  }

  /** Waiting for dependencies writes its condition at the instant of the next change,
      as often as it likes, without disturbing the schedule. */
  lemma WaitKeepsSchedule(w: World, n: nat, condition: ConditionStatus, why: Reason, detail: string)
    requires OnSchedule(w, n)
    ensures var at := w.latest.value.phaseChangedAt + 1;
            var r := Attempt(w, DoDependency(condition, why, detail, at));
            r.Ok? ==> OnSchedule(r.value, n) && r.value.latest == w.latest
  {
    hide Upsert, ByKind, UniqueKinds, ConditionsFit;
    DependencyKeepsCoherent(w, DoDependency(condition, why, detail, w.latest.value.phaseChangedAt + 1));
  }

  /** An admitted operation: pending since its request, which also wrote the status. */
  predicate Admitted(w: World) {
    && Coherent(w) && w.latest.Some? && w.latest.value.state.OpPending?
    && w.latest.value.phaseChangedAt == w.latest.value.requestedAt
    && w.status.updatedAt == w.latest.value.requestedAt
  }

  lemma AdmittedIsOnSchedule(w: World)
    requires Admitted(w)
    ensures OnSchedule(w, 0)
  {
  }

  /** Every accepted request leaves an admitted operation behind. */
  lemma RequestAdmits(w: World, request: Step)
    requires Coherent(w) && request.DoRequest? && Attempt(w, request).Ok?
    ensures Admitted(Attempt(w, request).value)
  {
    hide Upsert, ByKind, UniqueKinds, ConditionsFit, RequestConditions;
    RequestKeepsCoherent(w, request);
  }

  /** The drive loop: from any admitted operation it never fails and reaches Applying in
      exactly three phase changes, or Destroying in exactly two, each one instant after
      the one before. */
  method RunDrive(start: World) returns (w: World, changes: seq<Time>)
    requires Admitted(start)
    ensures OnSchedule(w, PhasesToCross(start.latest.value.capability))
    ensures |changes| == if start.latest.value.capability.Delete? then 2 else 3
    ensures forall i :: 0 <= i < |changes| ==> changes[i] == start.latest.value.requestedAt + 1 + i
    ensures w.resource == start.resource
    ensures w.latest.value == start.latest.value.(state := OpRunning,
                                                  phase := FinalPhase(start.latest.value.capability),
                                                  startedAt := start.latest.value.requestedAt + 1,
                                                  phaseChangedAt := start.latest.value.requestedAt + |changes|)
  {
    hide Coherent, Attempt;
    w, changes := start, [];
    AdmittedIsOnSchedule(start);
    ghost var o := start.latest.value;
    while NextPhase(w.latest.value).Some?
      invariant |changes| <= PhasesToCross(o.capability) && OnSchedule(w, |changes|)
      invariant w.resource == start.resource
      invariant if changes == [] then w == start
                else w.latest.value == o.(state := OpRunning, phase := PhaseAfter(o.capability, |changes|),
                                          startedAt := o.requestedAt + 1, phaseChangedAt := o.requestedAt + |changes|)
      invariant forall i :: 0 <= i < |changes| ==> changes[i] == o.requestedAt + 1 + i
      decreases PhasesToCross(o.capability) - |changes|
    {
      DriveStepStaysOnSchedule(w, |changes|);
      var moved := Attempt(w, DriveStep(w));
      w := moved.value;
      changes := changes + [w.latest.value.phaseChangedAt];
    }
  }
}
