/** What the conditions of a status say about the latest operation, in every state the
    engine reaches: whether and why it failed, what became of a delete, how far it got. */
module StatusStory {
  import opened Basics
  import opened Domain
  import OperationRuns
  import opened Lifecycle
  import opened LifecycleFacts
  import opened LifecycleRuns

  /** OperationFailed is true exactly for a failed operation, with its own reason, message,
      generation and time; otherwise it is false since the request or the success. */
  predicate FailureTold(o: Operation, cs: seq<Condition>) {
    FindCondition(cs, CondOperationFailed) ==
      Some(if o.failure.Some?
           then Condition(CondOperationFailed, CTrue, Given(o.failure.value.reason), o.failure.value.message, o.targetGeneration, o.completedAt)
           else Condition(CondOperationFailed, CFalse, Known(NoFailure), "", o.targetGeneration,
                          if o.state.OpSucceeded? then o.completedAt else o.requestedAt))
  }

  predicate DeletionDone(o: Operation) {
    o.capability.Delete? && o.state.OpSucceeded?
  }

  /** Deleted is true, and the resource deleted, exactly after a succeeded delete; a delete
      that goes on or failed and a create that goes on or succeeded each say so. */
  predicate DeletionTold(o: Operation, cs: seq<Condition>, state: ResourceState) {
    && (Holds(cs, CondDeleted) <==> DeletionDone(o))
    && (state.RsDeleted? <==> DeletionDone(o))
    && (o.capability.Delete? ==>
          FindCondition(cs, CondDeleted) ==
            Some(if o.state.OpSucceeded? then Condition(CondDeleted, CTrue, Known(DestructionSucceeded), "", o.targetGeneration, o.completedAt)
                 else if o.failure.Some?
                 then Condition(CondDeleted, CFalse, Given(o.failure.value.reason), o.failure.value.message, o.targetGeneration, o.completedAt)
                 else Condition(CondDeleted, CFalse, Known(DeletePending), "", o.targetGeneration, o.requestedAt)))
    && (o.capability.Create? ==>
          FindCondition(cs, CondDeleted) ==
            Some(if o.state.OpSucceeded? then Condition(CondDeleted, CFalse, Known(ResourceCreated), "", o.targetGeneration, o.completedAt)
                 else Condition(CondDeleted, CFalse, Known(CreatePending), "", o.targetGeneration, o.requestedAt)))
  }

  /** Why work in progress is in progress: the request, or the phase it is in. */
  function ProgressReason(o: Operation): Reason {
    Known(if o.state.OpPending? then RequestedFor(o.capability, o.retryOf != "") else EnteredPhase(o.phase))
  }

  /** Reconciling is true exactly while the operation is in progress, since its latest
      phase change; at the end it says how the operation ended, or that the desired
      generation had moved on by then. */
  predicate ProgressTold(o: Operation, cs: seq<Condition>) {
    var c := FindCondition(cs, CondReconciling);
    && c.Some?
    && if !o.IsTerminal() then c.value == Condition(CondReconciling, CTrue, ProgressReason(o), "", o.targetGeneration, o.phaseChangedAt)
       else
         && c.value.status.CFalse? && c.value.observedGeneration == o.targetGeneration && c.value.lastTransitionAt == o.completedAt
         && c.value.reason in {Known(NewerGenerationPending), Known(if o.failure.None? then LifecycleSucceeded else OperationFailed)}
  }

  /** Reconciled is false while the operation is in progress and after it failed, true after
      it succeeded unless the desired generation had moved on by then or drift was seen since. */
  predicate ReconciledTold(o: Operation, cs: seq<Condition>) {
    var c := FindCondition(cs, CondReconciled);
    && c.Some?
    && if !o.IsTerminal()
       then c.value == Condition(CondReconciled, CFalse, if o.state.OpPending? then Known(LifecycleRequested) else ProgressReason(o), "",
                                 o.targetGeneration, o.phaseChangedAt)
       else if o.failure.Some? then
         && c.value.status.CFalse? && c.value.observedGeneration == o.targetGeneration && c.value.lastTransitionAt == o.completedAt
         && c.value.reason in {Known(NewerGenerationPending), Given(o.failure.value.reason)}
       else
         || c.value == Condition(CondReconciled, CTrue, Known(LifecycleSucceeded), "", o.targetGeneration, o.completedAt)
         || (c.value.status.CFalse? && c.value.reason in {Known(NewerGenerationPending), Known(DriftDetected)})
  }

  /** Which states each capability passes through. Observations move a resource at rest
      between Ready and Unknown. */
  predicate StateTold(o: Operation, state: ResourceState) {
    match o.capability
    case Create =>
      if !o.IsTerminal() then state.RsPending?
      else if o.failure.Some? then state.RsFailed?
      else state.RsReady? || state.RsUnknown?
    case Update =>
      if !o.IsTerminal() then state.RsReady? else state.RsReady? || state.RsUnknown?
    case Delete =>
      if !o.IsTerminal() then state.RsDeleting?
      else if o.failure.Some? then state.RsReady? || state.RsFailed? || state.RsUnknown?
      else state.RsDeleted?
    case OtherCapability(_) => false
  }

  /** The status tells the story of the latest operation; before the first one there is
      nothing to tell. */
  predicate Tells(w: World) {
    var cs := w.status.conditions;
    match w.latest
    case None =>
      && FindCondition(cs, CondOperationFailed).None? && FindCondition(cs, CondDeleted).None? && FindCondition(cs, CondReconciling).None?
      && (w.status.state.RsReady? || w.status.state.RsUnknown?)
    case Some(o) =>
      && !o.state.OpCanceled?
      && FailureTold(o, cs) && DeletionTold(o, cs, w.status.state) && ProgressTold(o, cs) && ReconciledTold(o, cs)
      && StateTold(o, w.status.state)
  }

  lemma FreshTells(w: World)
    requires Fresh(w)
    ensures Tells(w)
  {
  }

  lemma RequestWrites(s: ResourceStatus, o: Operation, retry: bool, at: Time)
    requires !o.capability.OtherCapability?
    ensures var cs := RequestConditions(s, o, retry, at);
            && FindCondition(cs, CondReconciling) == Some(Condition(CondReconciling, CTrue, Known(RequestedFor(o.capability, retry)), "", o.targetGeneration, at))
            && FindCondition(cs, CondReconciled) == Some(Condition(CondReconciled, CFalse, Known(LifecycleRequested), "", o.targetGeneration, at))
            && FindCondition(cs, CondOperationFailed) == Some(Condition(CondOperationFailed, CFalse, Known(NoFailure), "", o.targetGeneration, at))
            && FindCondition(cs, CondDeleted) ==
                 (if o.capability.Update? then FindCondition(s.conditions, CondDeleted)
                  else Some(Condition(CondDeleted, CFalse, Known(if o.capability.Create? then CreatePending else DeletePending), "", o.targetGeneration, at)))
            && FindCondition(cs, CondDependenciesReady) == FindCondition(s.conditions, CondDependenciesReady)
            && FindCondition(cs, CondDrifted) == FindCondition(s.conditions, CondDrifted)
            && FindCondition(cs, CondReady) == (
                 if o.capability.Create? then Some(Condition(CondReady, CFalse, Known(CreatePending), "", o.targetGeneration, at))
                 else if s.state.RsReady? && !Holds(s.conditions, CondReady)
                 then Some(Condition(CondReady, CTrue, Known(PreviouslyReady), "", s.observedGeneration, at))
                 else FindCondition(s.conditions, CondReady))
  {
    hide Upsert, ByKind, UniqueKinds, ConditionsFit;
  }

  lemma RequestTells(w: World, step: Step, n: World)
    requires Coherent(w) && Tells(w) && step.DoRequest? && Attempt(w, step) == Ok(n)
    ensures Tells(n)
  {
    hide Upsert, ByKind, UniqueKinds, ConditionsFit, StatusWellFormed, RequestConditions, Agreement, OperationFits, ProgressTold, ReconciledTold;
    if w.latest.Some? {
      LatestIsSound(w);
    }
    var o := n.latest.value;
    RequestWrites(w.status, o, o.retryOf != "", step.at);
    assert ProgressTold(o, n.status.conditions) && ReconciledTold(o, n.status.conditions) by {
      NewIsTold(o, n.status.conditions);
    }
  }

  lemma NewIsTold(o: Operation, cs: seq<Condition>)
    requires o.state.OpPending? && o.phaseChangedAt == o.requestedAt
    requires FindCondition(cs, CondReconciling) ==
               Some(Condition(CondReconciling, CTrue, Known(RequestedFor(o.capability, o.retryOf != "")), "", o.targetGeneration, o.requestedAt))
    requires FindCondition(cs, CondReconciled) ==
               Some(Condition(CondReconciled, CFalse, Known(LifecycleRequested), "", o.targetGeneration, o.requestedAt))
    ensures ProgressTold(o, cs) && ReconciledTold(o, cs)
  {
    hide FindCondition;
  }

  lemma LatestIsSound(w: World)
    requires Coherent(w) && w.latest.Some?
    ensures OperationRuns.Sound(w.latest.value) && !w.latest.value.capability.OtherCapability?
  {
  }

  lemma AdvanceTells(w: World, step: Step, n: World)
    requires Coherent(w) && Tells(w) && step.DoAdvance? && Attempt(w, step) == Ok(n)
    ensures Tells(n)
  {
    hide Upsert, ByKind, UniqueKinds, ConditionsFit, StatusWellFormed, Agreement;
  }

  lemma CompleteWrites(r: Resource, s: ResourceStatus, o: Operation, at: Time)
    requires !o.capability.OtherCapability?
    ensures var cs, g := CompletedConditions(r, s, o, at), o.targetGeneration;
            && FindCondition(cs, CondReconciling) ==
                 Some(Condition(CondReconciling, CFalse, Known(if g < r.generation then NewerGenerationPending else LifecycleSucceeded), "", g, at))
            && FindCondition(cs, CondReconciled) ==
                 Some(if g < r.generation then Condition(CondReconciled, CFalse, Known(NewerGenerationPending), "", g, at)
                      else Condition(CondReconciled, CTrue, Known(LifecycleSucceeded), "", g, at))
            && FindCondition(cs, CondOperationFailed) == Some(Condition(CondOperationFailed, CFalse, Known(NoFailure), "", g, at))
            && FindCondition(cs, CondDeleted) ==
                 (if o.capability.Update? then FindCondition(s.conditions, CondDeleted)
                  else Some(if o.capability.Create? then Condition(CondDeleted, CFalse, Known(ResourceCreated), "", g, at)
                            else Condition(CondDeleted, CTrue, Known(DestructionSucceeded), "", g, at)))
            && FindCondition(cs, CondDependenciesReady) == FindCondition(s.conditions, CondDependenciesReady)
            && FindCondition(cs, CondDrifted) == FindCondition(s.conditions, CondDrifted)
            && FindCondition(cs, CondReady) == 
                 Some(if o.capability.Delete? then Condition(CondReady, CFalse, Known(ResourceDeleted), "", g, at)
                      else Condition(CondReady, CTrue, Known(LifecycleSucceeded), "", g, at))
  {
    hide Upsert, ByKind, UniqueKinds, ConditionsFit;
  }

  lemma CompleteTells(w: World, step: Step, n: World)
    requires Coherent(w) && Tells(w) && step.DoComplete? && Attempt(w, step) == Ok(n)
    ensures Tells(n)
  {
    hide Upsert, ByKind, UniqueKinds, ConditionsFit, StatusWellFormed, CompletedConditions, Agreement;
    CompleteWrites(w.resource, w.status, w.latest.value, step.at);
  }

  lemma FailWrites(r: Resource, s: ResourceStatus, o: Operation, reason: string, message: string, at: Time)
    requires !o.capability.OtherCapability?
    ensures var cs, g := FailedConditions(r, s, o, reason, message, at), o.targetGeneration;
            && FindCondition(cs, CondReconciling) ==
                 Some(if g < r.generation then Condition(CondReconciling, CFalse, Known(NewerGenerationPending), "", g, at)
                      else Condition(CondReconciling, CFalse, Known(OperationFailed), message, g, at))
            && FindCondition(cs, CondReconciled) ==
                 Some(if g < r.generation then Condition(CondReconciled, CFalse, Known(NewerGenerationPending), "", g, at)
                      else Condition(CondReconciled, CFalse, Given(reason), message, g, at))
            && FindCondition(cs, CondOperationFailed) == Some(Condition(CondOperationFailed, CTrue, Given(reason), message, g, at))
            && FindCondition(cs, CondDeleted) ==
                 (if !o.capability.Delete? then FindCondition(s.conditions, CondDeleted)
                  else Some(Condition(CondDeleted, CFalse, Given(reason), message, g, at)))
            && FindCondition(cs, CondDependenciesReady) == FindCondition(s.conditions, CondDependenciesReady)
            && FindCondition(cs, CondDrifted) == FindCondition(s.conditions, CondDrifted)
            && FindCondition(cs, CondReady) == (
                 if o.capability.Create? then Some(Condition(CondReady, CFalse, Given(reason), message, g, at))
                 else FindCondition(s.conditions, CondReady))
  {
    hide Upsert, ByKind, UniqueKinds, ConditionsFit;
  }

  lemma FailTells(w: World, step: Step, n: World)
    requires Coherent(w) && Tells(w) && step.DoFail? && Attempt(w, step) == Ok(n)
    ensures Tells(n)
  {
    hide Upsert, ByKind, UniqueKinds, ConditionsFit, StatusWellFormed, FailedConditions, Agreement;
    FailWrites(w.resource, w.status, w.latest.value, step.reason, step.message, step.at);
  }

  /** The drift a report speaks of. */
  function DriftReported(f: ObservedFacts, generation: nat, at: Time): Condition {
    if f.drift == Drifted then Condition(CondDrifted, CTrue, Known(DriftDetected), "", generation, at)
    else if f.drift == InSync then Condition(CondDrifted, CFalse, Known(DriftInSync), "", generation, at)
    else Condition(CondDrifted, CUnknown, Known(DriftIsUnknown), "", generation, at)
  }

  /** What a report makes of the Ready condition: a missing resource is not ready, a present
      one is as ready as reported, and where nothing is known the old word stands. */
  function ReadinessReported(f: ObservedFacts, before: Option<Condition>, generation: nat, at: Time): Option<Condition> {
    if f.presence == PresenceNotFound then Some(Condition(CondReady, CFalse, Known(ResourceNotFound), "", generation, at))
    else if f.presence == Present && f.readiness == FactReady then Some(Condition(CondReady, CTrue, Known(ResourceReady), "", generation, at))
    else if f.presence == Present && f.readiness == FactNotReady then Some(Condition(CondReady, CFalse, Known(ResourceNotReady), "", generation, at))
    else if f.presence == Present || before.None? then Some(Condition(CondReady, CUnknown, Known(ReadinessIsUnknown), "", generation, at))
    else before
  }

  lemma ObserveWrites(s: ResourceStatus, f: ObservedFacts, at: Time)
    ensures var cs := ObservedConditions(s, f, at);
            && FindCondition(cs, CondReconciling) == FindCondition(s.conditions, CondReconciling)
            && FindCondition(cs, CondOperationFailed) == FindCondition(s.conditions, CondOperationFailed)
            && FindCondition(cs, CondDeleted) == FindCondition(s.conditions, CondDeleted)
            && FindCondition(cs, CondReconciled) ==
                 (if f.drift.Drifted? && (FindCondition(s.conditions, CondReconciled).None? || Holds(s.conditions, CondReconciled))
                  then Some(Condition(CondReconciled, CFalse, Known(DriftDetected), "", s.observedGeneration, at))
                  else FindCondition(s.conditions, CondReconciled))
            && FindCondition(cs, CondDependenciesReady) == FindCondition(s.conditions, CondDependenciesReady)
            && FindCondition(cs, CondDrifted) == Some(DriftReported(f, s.observedGeneration, at))
            && (FactsValid(f) ==>
                  FindCondition(cs, CondReady) == ReadinessReported(f, FindCondition(s.conditions, CondReady), s.observedGeneration, at))
  {
    hide Upsert, ByKind, UniqueKinds, ConditionsFit;
  }

  lemma ObserveTells(w: World, step: Step, n: World)
    requires Coherent(w) && Tells(w) && (step.DoObserve? || step.DoPostObserve?) && Attempt(w, step) == Ok(n)
    ensures Tells(n)
  {
    hide Upsert, ByKind, UniqueKinds, ConditionsFit, StatusWellFormed, ObservedConditions;
    ObserveWrites(w.status, step.facts, step.at);
  }

  lemma DependencyTells(w: World, step: Step, n: World)
    requires Coherent(w) && Tells(w) && step.DoDependency? && Attempt(w, step) == Ok(n)
    ensures Tells(n)
  {
    hide Upsert, ByKind, UniqueKinds, ConditionsFit, StatusWellFormed, Agreement;
  }

  lemma StepTells(w: World, step: Step, n: World)
    requires Coherent(w) && Tells(w) && Attempt(w, step) == Ok(n)
    ensures Tells(n)
  {
    hide Coherent, Tells, Request, Advance, Complete, Fail, ObserveWith, SetDependencyCondition;
    match step
    case DoUpdateSpec(_, _) => RestateTells(w, n);
    case DoRequest(_, _, _, _, _, _) => RequestTells(w, step, n);
    case DoAdvance(_, _, _) => AdvanceTells(w, step, n);
    case DoComplete(_, _) => CompleteTells(w, step, n);
    case DoFail(_, _, _, _) => FailTells(w, step, n);
    case DoObserve(_, _) => ObserveTells(w, step, n);
    case DoPostObserve(_, _) => ObserveTells(w, step, n);
    case DoDependency(_, _, _, _) => DependencyTells(w, step, n);
  }

  lemma RestateTells(w: World, n: World)
    requires Tells(w) && n.status == w.status && n.latest == w.latest
    ensures Tells(n)
  {
  }

  lemma {:induction false} RunTells(w: World, steps: seq<Step>)
    requires Coherent(w) && Tells(w)
    ensures Coherent(Play(w, steps)) && Tells(Play(w, steps))
    decreases |steps|
  {
    hide Coherent, Tells, Attempt;
    if steps != [] {
      var r := Attempt(w, steps[0]);
      StepKeepsCoherent(w, steps[0]);
      if r.Ok? {
        StepTells(w, steps[0], r.value);
      }
      RunTells(if r.Ok? then r.value else w, steps[1..]);
    }
  }

  /** In every state reached from a new resource: OperationFailed is true exactly when the
      latest operation failed, and then carries what it failed with; Deleted is true,
      and the resource deleted, exactly when the latest operation is a succeeded delete;
      Reconciling is true exactly while an operation is in progress. */
  lemma EveryRunTells(w: World, steps: seq<Step>)
    requires Fresh(w)
    ensures var n := Play(w, steps);
            && Tells(n)
            && (Holds(n.status.conditions, CondOperationFailed) <==> n.latest.Some? && n.latest.value.state.OpFailed?)
            && (n.latest.Some? && n.latest.value.state.OpFailed? ==>
                  && n.latest.value.failure.Some?
                  && FindCondition(n.status.conditions, CondOperationFailed) ==
                       Some(Condition(CondOperationFailed, CTrue, Given(n.latest.value.failure.value.reason),
                                      n.latest.value.failure.value.message, n.latest.value.targetGeneration, n.latest.value.completedAt)))
            && (Holds(n.status.conditions, CondDeleted) <==> n.latest.Some? && DeletionDone(n.latest.value))
            && (n.status.state.RsDeleted? <==> n.latest.Some? && DeletionDone(n.latest.value))
            && (Holds(n.status.conditions, CondReconciling) <==> n.latest.Some? && !n.latest.value.IsTerminal())
  {
    hide Play, Coherent, Tells, ByKind;
    assert Coherent(w) by { FreshIsCoherent(w); }
    FreshTells(w);
    RunTells(w, steps);
    WhatIsTold(Play(w, steps));
  }

  lemma WhatIsTold(w: World)
    requires Coherent(w) && Tells(w)
    ensures Holds(w.status.conditions, CondOperationFailed) <==> w.latest.Some? && w.latest.value.state.OpFailed?
    ensures w.latest.Some? && w.latest.value.state.OpFailed? ==> w.latest.value.failure.Some? && FailureTold(w.latest.value, w.status.conditions)
    ensures Holds(w.status.conditions, CondDeleted) <==> w.latest.Some? && DeletionDone(w.latest.value)
    ensures w.status.state.RsDeleted? <==> w.latest.Some? && DeletionDone(w.latest.value)
    ensures Holds(w.status.conditions, CondReconciling) <==> w.latest.Some? && !w.latest.value.IsTerminal()
  {
    hide Upsert, ByKind, UniqueKinds, ConditionsFit, StatusWellFormed;
  }

  // -------------------------------------- conditions that no operation determines

  /** Which conditions each call builds. */
  ghost predicate Builds(w: World, step: Step, n: World) {
    var s, cs := w.status, n.status.conditions;
    match step
    case DoUpdateSpec(_, _) => n.status == s
    case DoRequest(_, _, capability, _, _, at) =>
      && n.latest.Some? && !capability.OtherCapability? && n.latest.value.capability == capability
      && n.latest.value.targetGeneration == n.status.observedGeneration
      && cs == RequestConditions(s, n.latest.value, n.latest.value.retryOf != "", at)
    case DoAdvance(next, _, at) =>
      cs == SetCondition(SetCondition(s.conditions, CondReconciling, CTrue, Known(EnteredPhase(next)), "", s.observedGeneration, at),
                         CondReconciled, CFalse, Known(EnteredPhase(next)), "", s.observedGeneration, at)
    case DoComplete(_, at) =>
      && w.latest.Some? && !w.latest.value.capability.OtherCapability? && w.latest.value.targetGeneration == s.observedGeneration
      && cs == CompletedConditions(w.resource, s, w.latest.value, at)
    case DoFail(reason, message, _, at) =>
      && w.latest.Some? && !w.latest.value.capability.OtherCapability? && w.latest.value.targetGeneration == s.observedGeneration
      && cs == FailedConditions(w.resource, s, w.latest.value, reason, message, at)
    case DoObserve(f, at) => FactsValid(f) && cs == ObservedConditions(s, f, at)
    case DoPostObserve(f, at) => FactsValid(f) && cs == ObservedConditions(s, f, at)
    case DoDependency(condition, why, detail, at) =>
      cs == SetCondition(s.conditions, CondDependenciesReady, condition, why, detail, s.observedGeneration, at)
  }

  lemma StepBuilds(w: World, step: Step, n: World)
    requires Coherent(w) && Attempt(w, step) == Ok(n)
    ensures Builds(w, step, n)
  {
    hide Upsert, StatusWellFormed, RequestConditions, CompletedConditions, FailedConditions, ObservedConditions, Coherent, FactsValid, FailedState,
         ObservedState, ActiveCapability;
    if w.latest.Some? {
      LatestIsSound(w);
    }
  }

  /** DependenciesReady is what was last written there, Drifted what was last reported;
      no other call touches them. */
  lemma StepsWriteOnce(w: World, step: Step, n: World)
    requires Coherent(w) && Attempt(w, step) == Ok(n)
    ensures FindCondition(n.status.conditions, CondDependenciesReady) ==
              if step.DoDependency?
              then Some(Condition(CondDependenciesReady, step.condition, step.why, step.detail, w.status.observedGeneration, step.at))
              else FindCondition(w.status.conditions, CondDependenciesReady)
    ensures FindCondition(n.status.conditions, CondDrifted) ==
              if step.DoObserve? || step.DoPostObserve? then Some(DriftReported(step.facts, w.status.observedGeneration, step.at))
              else FindCondition(w.status.conditions, CondDrifted)
  {
    hide Upsert, ByKind, RequestConditions, CompletedConditions, FailedConditions, ObservedConditions, DriftReported, ReadinessReported, Coherent, Attempt;
    StepBuilds(w, step, n);
    match step
    case DoRequest(_, _, _, _, _, at) => RequestWrites(w.status, n.latest.value, n.latest.value.retryOf != "", at);
    case DoComplete(_, at) => CompleteWrites(w.resource, w.status, w.latest.value, at);
    case DoFail(reason, message, _, at) => FailWrites(w.resource, w.status, w.latest.value, reason, message, at);
    case DoObserve(f, at) => ObserveWrites(w.status, f, at);
    case DoPostObserve(f, at) => ObserveWrites(w.status, f, at);
    case _ =>
  }

  /** Every change of the Ready condition: creating and deleting take it away, success and
      reports decide it, and a request on a Ready resource holds on to it. */
  lemma StepsDecideReady(w: World, step: Step, n: World)
    requires Coherent(w) && Attempt(w, step) == Ok(n)
    ensures var before, after := FindCondition(w.status.conditions, CondReady), FindCondition(n.status.conditions, CondReady);
            match step
            case DoRequest(_, _, capability, _, _, at) =>
              after == if capability.Create? then Some(Condition(CondReady, CFalse, Known(CreatePending), "", n.status.observedGeneration, at))
                       else if w.status.state.RsReady? && !Holds(w.status.conditions, CondReady)
                       then Some(Condition(CondReady, CTrue, Known(PreviouslyReady), "", w.status.observedGeneration, at))
                       else before
            case DoComplete(_, at) =>
              after == Some(if w.latest.value.capability.Delete?
                            then Condition(CondReady, CFalse, Known(ResourceDeleted), "", w.status.observedGeneration, at)
                            else Condition(CondReady, CTrue, Known(LifecycleSucceeded), "", w.status.observedGeneration, at))
            case DoFail(reason, message, _, at) =>
              after == if w.latest.value.capability.Create? then Some(Condition(CondReady, CFalse, Given(reason), message, w.status.observedGeneration, at))
                       else before
            case DoObserve(f, at) => after == ReadinessReported(f, before, w.status.observedGeneration, at)
            case DoPostObserve(f, at) => after == ReadinessReported(f, before, w.status.observedGeneration, at)
            case _ => after == before
  {
    hide Upsert, ByKind, RequestConditions, CompletedConditions, FailedConditions, ObservedConditions, DriftReported, ReadinessReported, Coherent, Attempt;
    StepBuilds(w, step, n);
    match step
    case DoRequest(_, _, _, _, _, at) => RequestWrites(w.status, n.latest.value, n.latest.value.retryOf != "", at);
    case DoComplete(_, at) => CompleteWrites(w.resource, w.status, w.latest.value, at);
    case DoFail(reason, message, _, at) => FailWrites(w.resource, w.status, w.latest.value, reason, message, at);
    case DoObserve(f, at) => ObserveWrites(w.status, f, at);
    case DoPostObserve(f, at) => ObserveWrites(w.status, f, at);
    case _ =>
  }

  // ---------------------------------------------------------------------- events

  /** The audit event of every transition names the resource, the operation and its target
      generation, and says what became of the operation, why and when. */
  predicate EventTells(e: Event, o: Operation) {
    && e.resourceID == o.resourceID && e.operationID == o.id && e.generation == o.targetGeneration
    && match o.state
       case OpPending =>
         e.kind == RequestedEvent && e.reason == Known(RequestedFor(o.capability, o.retryOf != "")) && e.message == "" && e.occurredAt == o.requestedAt
       case OpRunning =>
         e.kind == PhaseChangedEvent && e.reason == Known(EnteredPhase(o.phase)) && e.message == "" && e.occurredAt == o.phaseChangedAt
       case OpSucceeded =>
         e.kind == SucceededEvent && e.reason == Known(SucceededFor(o.capability)) && e.message == "" && e.occurredAt == o.completedAt
       case OpFailed =>
         && o.failure.Some? && e.kind == FailedEvent && e.reason == Given(o.failure.value.reason)
         && e.message == o.failure.value.message && e.occurredAt == o.completedAt
       case _ => false
  }

  lemma RequestIsTold(r: Resource, declared: TypeRef, supported: set<Capability>, s: ResourceStatus, latest: Option<Operation>,
                      capability: Capability, operationID: OperationID, eventID: EventID, at: Time, t: Transition)
    requires Request(r, declared, supported, s, latest, capability, operationID, eventID, at) == Ok(t)
    requires latest.Some? ==> OperationRuns.Sound(latest.value)
    ensures t.event.id == eventID && EventTells(t.event, t.operation)
  {
    hide StatusOf, RequestConditions, RequestAllowed, ResourceContextValid, OperationSnapshotValid;
  }

  lemma TransitionIsTold(r: Resource, s: ResourceStatus, o: Operation, next: Phase, reason: string, message: string, eventID: EventID, at: Time,
                         t: Transition)
    requires || Advance(r, s, o, next, eventID, at) == Ok(t)
             || Complete(r, s, o, eventID, at) == Ok(t)
             || Fail(r, s, o, reason, message, eventID, at) == Ok(t)
    ensures t.event.id == eventID && EventTells(t.event, t.operation)
  {
    hide StatusOf, CompletedConditions, FailedConditions, ActiveCapability, FailedState;
  }
}
