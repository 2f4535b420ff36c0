/** What the workers' steps do to the records: when each is taken, and everything it writes. */
module WorkMeaning {
  import opened AdmissionFacts
  import opened Basics
  import opened Convergence
  import opened ConvergenceFacts
  import opened Dependencies
  import opened Domain
  import opened Drive
  import opened EngineRules
  import opened EvidenceMeaning
  import opened FinishFacts
  import opened Finishing
  import opened Lifecycle
  import opened LifecycleRuns
  import opened Outputs
  import opened Provisioning
  import opened Readings
  import opened References
  import opened Store

  /** One operation and its execution move on, and the status of their resource; nothing is
      added, and the admissions stand. */
  predicate OnlyMoves(s: Records, n: Records, id: ResourceID, o: Operation, x: Execution) {
    && id in s.resources && id in n.resources
    && n.operations == s.operations[o.id := o] && n.executions == s.executions[o.id := x]
    && n.resources == s.resources[id := s.resources[id].(status := n.resources[id].status)]
    && n.latest == s.latest && n.bindings == s.bindings && n.updates == s.updates
  }

  /** The latest of the evidence and what is stored of the resource. */
  function NoEarlier(at: Time, rec: Record): Time {
    Later(at, Later(rec.status.updatedAt, rec.resource.updatedAt))
  }

  function Lifted(x: Execution, at: Time, rec: Record): Execution {
    if at == NoEarlier(at, rec) then x else x.(lastObservedAt := NoEarlier(at, rec))
  }

  lemma LiftedIsAligned(x: Execution, at: Time, rec: Record)
    ensures Aligned(at, rec) == NoEarlier(at, rec) && AlignedExecution(x, at, rec) == Lifted(x, at, rec)
  {
  }

  predicate SeesDrift(f: ObservedFacts) {
    FactsReadable(f) && f.drift == Drifted
  }

  lemma SeenDrift(s: Records, id: ResourceID, f: ObservedFacts, anew: bool)
    ensures DriftAfter(s, id, Sanitized(f), anew) == if SeesDrift(f) then s.driftSeen + {id} else if anew then s.driftSeen - {id} else s.driftSeen
    ensures FactsValid(f) ==>
              DriftAfter(s, id, f, anew) == if f.drift == Drifted then s.driftSeen + {id} else if anew then s.driftSeen - {id} else s.driftSeen
  {
  }

  // ------------------------------------------------------------------- finishing

  function Failed(o: Operation, reason: string, message: string, at: Time): Operation {
    o.(state := OpFailed, completedAt := at, failure := Some(Failure(reason, message)))
  }

  /** The evidence names an operation in progress, for the intent it was admitted with. */
  predicate Concerns(s: Records, x: Execution) {
    && x.intent.operationID in s.operations && !s.operations[x.intent.operationID].IsTerminal()
    && x.intent.operationID in s.executions && s.executions[x.intent.operationID].intent == x.intent
    && s.operations[x.intent.operationID].resourceID in s.resources
  }

  ghost function PlanFor(c: Catalog, x: Execution, evidence: Option<OutputEvidence>, at: Time): Option<OutputPlan>
    requires x.intent.typeRef in c
  {
    PlanTerminalOutputs(c[x.intent.typeRef].outputs, x.intent.capability, evidence, x.intent.targetGeneration, at)
  }

  /** A failure ends the operation with its reason and leaves rows and outputs alone. */
  lemma FailureWrites(s: Records, c: Catalog, x: Execution, finish: Finish, evidence: Option<OutputEvidence>, detail: string, at: Time, n: Records)
    requires Invariant(s, c) && !finish.succeeded && FinishOperation(s, c, x, finish, evidence, detail, at) == Ok(n)
    ensures Concerns(s, x)
    ensures var o := s.operations[x.intent.operationID];
            var rec := s.resources[o.resourceID];
            && OnlyMoves(s, n, o.resourceID, Failed(o, finish.reason, finish.message, NoEarlier(at, rec)), Lifted(x, at, rec))
            && n.desired == s.desired && n.applied == s.applied && n.outputs == s.outputs
            && n.driftSeen == if SeesDrift(finish.facts) then s.driftSeen + {o.resourceID} else s.driftSeen
  {
    hide Invariant, Aligned, AlignedExecution, Sanitized, BuildFinishEvidence, NoEarlier, SeesDrift, DriftAfter, EngineOutcome;
    Named(s, c, x.intent.operationID);
    var o := s.operations[x.intent.operationID];
    var rec := s.resources[o.resourceID];
    LiftedIsAligned(x, at, rec);
    SeenDrift(s, o.resourceID, finish.facts, false);
    EngineTime(o, rec.resource, rec.status, finish, Aligned(at, rec));
    EngineOutcomeState(o, rec.resource, rec.status, finish, Aligned(at, rec));
  }

  lemma Named(s: Records, c: Catalog, oid: OperationID)
    requires Invariant(s, c) && oid in s.operations
    ensures s.operations[oid].id == oid
  {
    assert OperationOk(s, oid);
  }

  /** Outputs that were rejected end the operation as failed while its attempt stays
      succeeded, with the detail in both. */
  lemma RejectionWrites(s: Records, c: Catalog, x: Execution, finish: Finish, evidence: Option<OutputEvidence>, detail: string, at: Time, n: Records)
    requires Invariant(s, c) && finish.succeeded && FinishOperation(s, c, x, finish, evidence, detail, at) == Ok(n)
    requires x.intent.typeRef in c && PlanFor(c, x, evidence, at).Some? && PlanFor(c, x, evidence, at).value.PlanReject?
    ensures Concerns(s, x)
    ensures var o := s.operations[x.intent.operationID];
            && OnlyMoves(s, n, o.resourceID, Failed(o, "OutputPostconditionRejected", detail, at),
                         x.(state := AttemptSucceeded,
                            outputs := x.outputs.(resolution := ResolutionRejected, failure := Some(Failure("OutputPostconditionRejected", detail)))))
            && n.desired == s.desired && n.applied == s.applied && n.outputs == s.outputs && n.driftSeen == s.driftSeen
  {
    hide Invariant, BuildFinishEvidence, PlanTerminalOutputs, EngineOutcome, MappingContradicts, EvidenceRepresentable;
    Named(s, c, x.intent.operationID);
    var o := s.operations[x.intent.operationID];
    var rec := s.resources[o.resourceID];
    var rejected := Finish(false, RejectionReason(), detail, NO_FACTS);
    EngineTime(o, rec.resource, rec.status, rejected, at);
    EngineOutcomeState(o, rec.resource, rec.status, rejected, at);
  }

  /** Outputs that are still missing leave the operation in progress: its attempt has
      succeeded, its outputs are pending, and one more observation is due. */
  lemma DeferralWrites(s: Records, c: Catalog, x: Execution, finish: Finish, evidence: Option<OutputEvidence>, detail: string, at: Time, n: Records)
    requires finish.succeeded && FinishOperation(s, c, x, finish, evidence, detail, at) == Ok(n)
    requires x.intent.typeRef in c && PlanFor(c, x, evidence, at) == Some(PlanDefer)
    ensures n == s.(executions := s.executions[x.intent.operationID :=
                      x.(state := AttemptSucceeded, outputs := x.outputs.(resolution := ResolutionPending), nextObservation := Later(1, x.nextObservation) + 1)])
  {
    hide FinishSucceeded, FinishRejected, FinishFailed, PlanTerminalOutputs, EvidenceRepresentable, MappingContradicts;
  }

  /** The applied rows of the resource become its desired ones; a delete leaves neither. */
  ghost predicate RowsSettle(s: Records, n: Records, id: ResourceID, deleted: bool) {
    && n.desired == (if deleted then s.desired - {id} else s.desired)
    && (forall other :: other != id ==> (other in n.applied <==> other in s.applied) && (other in s.applied ==> n.applied[other] == s.applied[other]))
    && (id in n.applied <==> !deleted && id in s.desired && s.desired[id] != [])
    && (id in n.applied ==> id in s.desired && n.applied[id] == s.desired[id])
  }

  lemma AppliedRows(s: Records, n: Records, c: Catalog, id: ResourceID, generation: nat)
    requires Links(s, c) && id in s.resources && s.resources[id].resource.generation == generation
    requires n.desired == s.desired && n.applied == PutEdges(s.applied, id, generation, EdgesAt(s.desired, id))
    ensures RowsSettle(s, n, id, false)
  {
    hide Graph.Acyclic, DesiredGraph;
    if id in s.desired {
      StampedIsSame(s.desired[id], generation);
    }
  }

  lemma SuccessIsTaken(s: Records, c: Catalog, x: Execution, finish: Finish, evidence: Option<OutputEvidence>, detail: string, at: Time, n: Records)
    requires Invariant(s, c) && finish.succeeded && FinishOperation(s, c, x, finish, evidence, detail, at) == Ok(n)
    requires x.intent.typeRef in c && PlanFor(c, x, evidence, at).Some?
    requires PlanFor(c, x, evidence, at).value.PlanNone? || PlanFor(c, x, evidence, at).value.PlanPublish?
    ensures Concerns(s, x) && s.operations[x.intent.operationID].id == x.intent.operationID
    ensures var o, plan := s.operations[x.intent.operationID], PlanFor(c, x, evidence, at).value;
            var snapshot := if plan.PlanPublish? then Some(plan.snapshot) else None;
            && FinishSucceeded(s, o.resourceID, o, x, finish, snapshot, at) == Ok(n)
            && OutputsBrought(c, s.resources[o.resourceID].resource.typeRef, o, snapshot)
  {
    hide Invariant, FinishOperation, PlanTerminalOutputs, OutputsBrought, EvidenceRepresentable, InHand, ContextFits;
    SuccessPath(s, c, x, finish, evidence, detail, at, n);
    Named(s, c, x.intent.operationID);
    InvariantParts(s, c);
    FinishIsInHand(s, c, x, finish, evidence, detail, at);
    var o := s.operations[x.intent.operationID];
    HandHolds(s, o, x);
    PlanBrings(c, s.resources[o.resourceID], o, x, evidence, at);
  }

  lemma SuccessPath(s: Records, c: Catalog, x: Execution, finish: Finish, evidence: Option<OutputEvidence>, detail: string, at: Time, n: Records)
    requires finish.succeeded && FinishOperation(s, c, x, finish, evidence, detail, at) == Ok(n)
    requires x.intent.typeRef in c && PlanFor(c, x, evidence, at).Some?
    requires PlanFor(c, x, evidence, at).value.PlanNone? || PlanFor(c, x, evidence, at).value.PlanPublish?
    ensures Concerns(s, x) && EvidenceRepresentable(evidence)
    ensures var o, plan := s.operations[x.intent.operationID], PlanFor(c, x, evidence, at).value;
            FinishSucceeded(s, o.resourceID, o, x, finish, if plan.PlanPublish? then Some(plan.snapshot) else None, at) == Ok(n)
  {
    hide FinishSucceeded, FinishFailed, FinishRejected, PlanTerminalOutputs, EvidenceRepresentable, MappingContradicts, OutputsDeferred;
  }

  /** What a success leaves of the records. */
  ghost predicate SuccessWritten(s: Records, n: Records, o: Operation, x: Execution, finish: Finish, snapshot: Option<ResourceOutputs>, at: Time) {
    && o.resourceID in s.resources
    && var id, rec := o.resourceID, s.resources[o.resourceID];
    && OnlyMoves(s, n, id, o.(state := OpSucceeded, completedAt := NoEarlier(at, rec)),
                 Lifted(x, at, rec).(outputs := x.outputs.(resolution := if snapshot.Some? then ResolutionPublished else ResolutionNone)))
    && RowsSettle(s, n, id, o.capability == Delete)
    && n.outputs == (if snapshot.Some? then s.outputs[id := Published(o.id, x.outputs.mappingRef, snapshot.value)] else s.outputs)
    && n.driftSeen == if SeesDrift(finish.facts) then s.driftSeen + {id} else s.driftSeen - {id}
  }

  lemma SucceededMoves(s: Records, o: Operation, x: Execution, finish: Finish, snapshot: Option<ResourceOutputs>, at: Time, n: Records)
    requires o.resourceID in s.resources && FinishSucceeded(s, o.resourceID, o, x, finish, snapshot, at) == Ok(n)
    ensures var id, rec := o.resourceID, s.resources[o.resourceID];
            var done, rows := BuildFinishEvidence(o, rec.resource, rec.status, finish, Aligned(at, rec)), RowsAfterSuccess(s, id, o);
            var outputs := if snapshot.Some? then Publish(s.outputs, id, Published(o.id, x.outputs.mappingRef, snapshot.value)) else Some(s.outputs);
            && done.Ok? && rows.Ok? && outputs.Some?
            && n == MoveOperation(s, id, done.value.status, done.value.operation,
                                  AlignedExecution(x, at, rec).(outputs := AlignedExecution(x, at, rec).outputs.(
                                    resolution := if snapshot.Some? then ResolutionPublished else ResolutionNone)),
                                  rows.value.0, rows.value.1, outputs.value, DriftAfter(s, id, Sanitized(finish.facts), true))
  {
    hide BuildFinishEvidence, RowsAfterSuccess, Publish, Aligned, AlignedExecution, DriftAfter, Sanitized;
  }

  lemma MovedIsWritten(s: Records, n: Records, o: Operation, x: Execution, finish: Finish, snapshot: Option<ResourceOutputs>, at: Time,
                       status: ResourceStatus, y: Execution)
    requires o.resourceID in s.resources && RowsSettle(s, n, o.resourceID, o.capability == Delete)
    requires y == Lifted(x, at, s.resources[o.resourceID])
    requires n == MoveOperation(s, o.resourceID, status, o.(state := OpSucceeded, completedAt := NoEarlier(at, s.resources[o.resourceID])),
                                y.(outputs := y.outputs.(resolution := if snapshot.Some? then ResolutionPublished else ResolutionNone)),
                                n.desired, n.applied, n.outputs, n.driftSeen)
    requires n.outputs == (if snapshot.Some? then s.outputs[o.resourceID := Published(o.id, x.outputs.mappingRef, snapshot.value)] else s.outputs)
    requires n.driftSeen == if SeesDrift(finish.facts) then s.driftSeen + {o.resourceID} else s.driftSeen - {o.resourceID}
    ensures SuccessWritten(s, n, o, x, finish, snapshot, at)
  {
    hide RowsSettle, NoEarlier, SeesDrift;
  }

  lemma SucceededWrites(s: Records, c: Catalog, o: Operation, x: Execution, finish: Finish, snapshot: Option<ResourceOutputs>, at: Time, n: Records)
    requires Invariant(s, c) && InHand(s, o, x) && finish.succeeded
    requires OutputsBrought(c, s.resources[o.resourceID].resource.typeRef, o, snapshot)
    requires FinishSucceeded(s, o.resourceID, o, x, finish, snapshot, at) == Ok(n)
    ensures SuccessWritten(s, n, o, x, finish, snapshot, at)
  {
    hide Invariant, Aligned, AlignedExecution, Sanitized, BuildFinishEvidence, NoEarlier, SeesDrift, DriftAfter, EngineOutcome,
         RowsSettle, PutEdges, Publish, RowsAfterSuccess, OutputsBrought, FinishSucceeded, SuccessWritten, Lifted;
    var rec := s.resources[o.resourceID];
    SucceededMoves(s, o, x, finish, snapshot, at, n);
    NothingFailed(s, c, o);
    LiftedIsAligned(x, at, rec);
    SeenDrift(s, o.resourceID, finish.facts, true);
    SuccessIsNeverContradicted(s, c, o, x, snapshot);
    EngineTime(o, rec.resource, rec.status, finish, Aligned(at, rec));
    EngineOutcomeState(o, rec.resource, rec.status, finish, Aligned(at, rec));
    if o.capability.Delete? {
      GoneRows(s, n, o.resourceID);
    } else {
      InvariantParts(s, c);
      AppliedRows(s, n, c, o.resourceID, o.targetGeneration);
    }
    var done := BuildFinishEvidence(o, rec.resource, rec.status, finish, Aligned(at, rec)).value;
    MovedIsWritten(s, n, o, x, finish, snapshot, at, done.status, AlignedExecution(x, at, rec));
  }

  /** A success ends the operation, settles the rows, stores the snapshot if there is one,
      and starts drift anew. */
  lemma SuccessWrites(s: Records, c: Catalog, x: Execution, finish: Finish, evidence: Option<OutputEvidence>, detail: string, at: Time, n: Records)
    requires Invariant(s, c) && finish.succeeded && FinishOperation(s, c, x, finish, evidence, detail, at) == Ok(n)
    requires x.intent.typeRef in c && PlanFor(c, x, evidence, at).Some?
    requires PlanFor(c, x, evidence, at).value.PlanNone? || PlanFor(c, x, evidence, at).value.PlanPublish?
    ensures Concerns(s, x)
    ensures var plan := PlanFor(c, x, evidence, at).value;
            SuccessWritten(s, n, s.operations[x.intent.operationID], x, finish, if plan.PlanPublish? then Some(plan.snapshot) else None, at)
  {
    hide Invariant, FinishOperation, FinishSucceeded, PlanTerminalOutputs, OutputsBrought, SuccessWritten;
    SuccessIsTaken(s, c, x, finish, evidence, detail, at, n);
    var o, plan := s.operations[x.intent.operationID], PlanFor(c, x, evidence, at).value;
    SucceededWrites(s, c, o, x, finish, if plan.PlanPublish? then Some(plan.snapshot) else None, at, n);
  }

  lemma GoneRows(s: Records, n: Records, id: ResourceID)
    requires n.desired == s.desired - {id} && n.applied == s.applied - {id}
    ensures RowsSettle(s, n, id, true)
  {
  }

  lemma HandHolds(s: Records, o: Operation, x: Execution)
    requires InHand(s, o, x)
    ensures o.resourceID in s.resources && !o.IsTerminal()
  {
  }

  lemma NothingFailed(s: Records, c: Catalog, o: Operation)
    requires Invariant(s, c) && o.id in s.operations && s.operations[o.id] == o && !o.IsTerminal()
    ensures o.resourceID in s.resources && o.targetGeneration == s.resources[o.resourceID].resource.generation
    ensures o.failure == None
  {
    hide Books, Links, Bound, Coherent;
    InvariantParts(s, c);
    WorkInHand(s, c, o.id);
    OpenHasNoFailure(World(s.resources[o.resourceID].resource, s.resources[o.resourceID].status, Some(o)));
  }

  lemma OpenHasNoFailure(w: World)
    requires Coherent(w) && w.latest.Some? && !w.latest.value.IsTerminal()
    ensures w.latest.value.failure == None
  {
  }

  // ------------------------------------------------------------ when steps are taken

  lemma WorkIsCoherent(s: Records, c: Catalog, oid: OperationID)
    requires Invariant(s, c) && oid in s.operations && !s.operations[oid].IsTerminal()
    ensures var o := s.operations[oid];
            && o.id == oid && o.resourceID in s.resources && oid in s.executions
            && Coherent(World(s.resources[o.resourceID].resource, s.resources[o.resourceID].status, Some(o)))
            && o.targetGeneration == s.resources[o.resourceID].resource.generation
            && s.resources[o.resourceID].resource.typeRef in c && s.executions[oid].intent.typeRef in c
            && s.resources[o.resourceID].status.updatedAt <= o.phaseChangedAt + 1
            && s.resources[o.resourceID].status.observedGeneration == o.targetGeneration
            && InHand(s, o, s.executions[oid])
  {
    hide Books, Links, Bound, Coherent;
    InvariantParts(s, c);
    WorkInHand(s, c, oid);
  }

  predicate Ready(o: Operation) {
    o.state == OpRunning && o.phase == (if o.capability == Delete then Destroying else Applying)
  }

  /** The evidence names no mapping but the execution's own, and numbers that fit their widths. */
  predicate Fitting(x: Execution, evidence: Option<OutputEvidence>) {
    evidence.Some? ==>
      && evidence.value.mappingRef in {"", x.outputs.mappingRef}
      && forall name :: name in evidence.value.values && evidence.value.values[name].Integer? ==>
           InRange(evidence.value.values[name].kind, evidence.value.values[name].number)
  }

  lemma FittingExactly(x: Execution, evidence: Option<OutputEvidence>)
    ensures Fitting(x, evidence) <==> !MappingContradicts(x, evidence) && EvidenceRepresentable(evidence)
  {
    hide InRange;
  }

  /** Terminal evidence is taken exactly about an operation in progress: a failure with a
      reason; a success whose output evidence fits, and which is deferred, or rejected no
      earlier than the status, or of an operation in its final phase. */
  lemma FinishTakenExactly(s: Records, c: Catalog, x: Execution, finish: Finish, evidence: Option<OutputEvidence>, detail: string, at: Time)
    requires Invariant(s, c)
    ensures FinishOperation(s, c, x, finish, evidence, detail, at).Ok? <==>
              && Concerns(s, x)
              && var o := s.operations[x.intent.operationID];
              if !finish.succeeded then !Blank(finish.reason)
              else
                && Fitting(x, evidence) && x.intent.typeRef in c && PlanFor(c, x, evidence, at).Some?
                && (match PlanFor(c, x, evidence, at).value
                    case PlanDefer => true
                    case PlanReject(_) => s.resources[o.resourceID].status.updatedAt <= at
                    case _ => Ready(o))
  {
    hide Invariant, PlanTerminalOutputs, FinishFailed, FinishRejected, FinishSucceeded, Coherent, Fitting, MappingContradicts, EvidenceRepresentable, InHand;
    FittingExactly(x, evidence);
    if Concerns(s, x) {
      var o := s.operations[x.intent.operationID];
      Named(s, c, x.intent.operationID);
      WorkIsCoherent(s, c, x.intent.operationID);
      TakenFailure(s, c, o, x, finish, at);
      TakenRejection(s, c, o, x, detail, at);
      if finish.succeeded && x.intent.typeRef in c && EvidenceRepresentable(evidence) {
        var plan := PlanFor(c, x, evidence, at);
        HandOf(s, o, x);
        ContextOf(s, c, o);
        PlanBrings(c, s.resources[o.resourceID], o, x, evidence, at);
        if plan.Some? && plan.value.PlanPublish? {
          TakenSuccess(s, c, o, x, finish, Some(plan.value.snapshot), at);
        }
        if plan == Some(PlanNone) {
          TakenSuccess(s, c, o, x, finish, None, at);
        }
      }
    }
  }

  lemma HandOf(s: Records, o: Operation, x: Execution)
    requires Concerns(s, x) && o == s.operations[x.intent.operationID] && o.id == x.intent.operationID
    ensures InHand(s, o, x)
  {
  }

  lemma ContextOf(s: Records, c: Catalog, o: Operation)
    requires Invariant(s, c) && o.id in s.operations && s.operations[o.id] == o
    ensures o.id in s.executions && o.resourceID in s.resources && ContextFits(s.resources[o.resourceID], o, s.executions[o.id].intent)
  {
    hide ContextFits;
    assert OperationOk(s, o.id);
  }

  lemma TakenFailure(s: Records, c: Catalog, o: Operation, x: Execution, finish: Finish, at: Time)
    requires o.resourceID in s.resources
    requires Coherent(World(s.resources[o.resourceID].resource, s.resources[o.resourceID].status, Some(o))) && !o.IsTerminal()
    ensures !finish.succeeded ==> (FinishFailed(s, o.resourceID, o, x, finish, at).Ok? <==> !Blank(finish.reason))
  {
    hide Coherent, BuildFinishEvidence, Blank, Carries;
    var rec := s.resources[o.resourceID];
    FinishAcceptedExactly(o, rec.resource, rec.status, finish, Aligned(at, rec));
    NoCancel(World(rec.resource, rec.status, Some(o)));
  }

  lemma TakenRejection(s: Records, c: Catalog, o: Operation, x: Execution, detail: string, at: Time)
    requires o.resourceID in s.resources && !o.IsTerminal()
    requires Coherent(World(s.resources[o.resourceID].resource, s.resources[o.resourceID].status, Some(o)))
    ensures FinishRejected(s, o.resourceID, o, x, detail, at).Ok? <==> s.resources[o.resourceID].status.updatedAt <= at
  {
    hide Coherent, BuildFinishEvidence;
    var rec := s.resources[o.resourceID];
    FinishAcceptedExactly(o, rec.resource, rec.status, Finish(false, RejectionReason(), detail, NO_FACTS), at);
    NoCancel(World(rec.resource, rec.status, Some(o)));
    assert !IsSpace(RejectionReason()[0]);
  }

  lemma TakenSuccess(s: Records, c: Catalog, o: Operation, x: Execution, finish: Finish, snapshot: Option<ResourceOutputs>, at: Time)
    requires Invariant(s, c) && InHand(s, o, x) && finish.succeeded
    requires OutputsBrought(c, s.resources[o.resourceID].resource.typeRef, o, snapshot)
    ensures FinishSucceeded(s, o.resourceID, o, x, finish, snapshot, at).Ok? <==> Ready(o)
  {
    hide Invariant, Coherent, BuildFinishEvidence, Publish, RowsAfterSuccess, OutputsBrought, Carries, DriftAfter;
    var rec := s.resources[o.resourceID];
    WorkIsCoherent(s, c, o.id);
    FinishAcceptedExactly(o, rec.resource, rec.status, finish, Aligned(at, rec));
    NoCancel(World(rec.resource, rec.status, Some(o)));
    SuccessIsNeverContradicted(s, c, o, x, snapshot);
  }

  // ------------------------------------------------------- evidence, observation

  /** Evidence short of an end is recorded exactly about an operation in progress and for its
      own intent, and changes nothing else. */
  lemma EvidenceRecordedExactly(s: Records, c: Catalog, x: Execution)
    requires Invariant(s, c)
    ensures RecordEvidence(s, x).Ok? <==> Concerns(s, x)
    ensures RecordEvidence(s, x).Ok? ==> RecordEvidence(s, x).value == s.(executions := s.executions[x.intent.operationID := x])
  {
    hide Invariant;
    if x.intent.operationID in s.operations {
      OperationHasResource(s, c, x.intent.operationID);
    }
  }

  lemma OperationHasResource(s: Records, c: Catalog, oid: OperationID)
    requires Invariant(s, c) && oid in s.operations
    ensures s.operations[oid].resourceID in s.resources
  {
    assert OperationOk(s, oid);
  }

  /** Publishing keeps the snapshot of the higher generation, and refuses only a different
      one of the generation already stored. */
  lemma PublishExactly(outputs: map<ResourceID, Published>, id: ResourceID, p: Published)
    ensures Publish(outputs, id, p) == None <==>
              id in outputs && outputs[id].snapshot.observedGeneration == p.snapshot.observedGeneration && outputs[id] != p
    ensures Publish(outputs, id, p).Some? ==>
              Publish(outputs, id, p).value ==
                if id in outputs && p.snapshot.observedGeneration < outputs[id].snapshot.observedGeneration then outputs else outputs[id := p]
  {
  }

  predicate NamesItsCause(s: Records, x: Execution, r: WorkResult) {
    var oid := x.intent.operationID;
    && (r == Err(NoSuchWork) <==> oid !in s.operations)
    && (r == Err(StaleWork) <==> oid in s.operations && s.operations[oid].IsTerminal())
    && (r == Err(ConflictingWork) <==>
          oid in s.operations && !s.operations[oid].IsTerminal() && (oid !in s.executions || s.executions[oid].intent != x.intent))
  }

  /** Every refusal of evidence names its cause. */
  lemma EvidenceRefused(s: Records, c: Catalog, x: Execution, finish: Finish, evidence: Option<OutputEvidence>, detail: string, at: Time)
    requires Invariant(s, c)
    ensures NamesItsCause(s, x, RecordEvidence(s, x))
    ensures NamesItsCause(s, x, FinishOperation(s, c, x, finish, evidence, detail, at))
    ensures var r := FinishOperation(s, c, x, finish, evidence, detail, at);
            && (r == Err(MappingContradicted) <==>
                  Concerns(s, x) && finish.succeeded && evidence.Some? && evidence.value.mappingRef !in {"", x.outputs.mappingRef})
            && (r == Err(InvalidEvidence) ==> evidence.Some? && finish.succeeded)
            && r != Err(ContradictoryOutputs) && r != Err(CorruptRows) && r != Err(UnknownTypeWork)
  {
    hide Invariant, PlanTerminalOutputs, BuildFinishEvidence, Publish, RowsAfterSuccess, EvidenceRepresentable, DriftAfter, Aligned, AlignedExecution,
         OutputsBrought, InHand;
    if x.intent.operationID in s.operations {
      OperationHasResource(s, c, x.intent.operationID);
      Named(s, c, x.intent.operationID);
      ContextOf(s, c, s.operations[x.intent.operationID]);
      if Concerns(s, x) {
        SuccessIsClean(s, c, x, evidence, at);
      }
    }
  }

  lemma SuccessIsClean(s: Records, c: Catalog, x: Execution, evidence: Option<OutputEvidence>, at: Time)
    requires Invariant(s, c) && Concerns(s, x)
    ensures x.intent.typeRef in c
    ensures EvidenceRepresentable(evidence) ==>
              var o, plan := s.operations[x.intent.operationID], PlanFor(c, x, evidence, at);
              && RowsAfterSuccess(s, o.resourceID, o).Ok?
              && (plan.Some? && plan.value.PlanPublish? ==> Publish(s.outputs, o.resourceID, Published(o.id, x.outputs.mappingRef, plan.value.snapshot)).Some?)
    ensures evidence.None? ==> EvidenceRepresentable(evidence) && PlanFor(c, x, evidence, at).Some?
  {
    hide Invariant, PlanTerminalOutputs, Publish, RowsAfterSuccess, OutputsBrought, InHand, Coherent;
    var o := s.operations[x.intent.operationID];
    Named(s, c, x.intent.operationID);
    WorkIsCoherent(s, c, o.id);
    HandOf(s, o, x);
    ContextOf(s, c, o);
    NoEvidencePlans(c, x, at);
    if EvidenceRepresentable(evidence) {
      var plan := PlanFor(c, x, evidence, at);
      PlanBrings(c, s.resources[o.resourceID], o, x, evidence, at);
      if plan.Some? && plan.value.PlanPublish? {
        SuccessIsNeverContradicted(s, c, o, x, Some(plan.value.snapshot));
      } else {
        RowsAreCurrent(s, c, o);
      }
    }
  }

  lemma NoEvidencePlans(c: Catalog, x: Execution, at: Time)
    requires x.intent.typeRef in c
    ensures PlanFor(c, x, None, at).Some?
  {
    hide RequiresOutputs;
  }

  lemma RowsAreCurrent(s: Records, c: Catalog, o: Operation)
    requires Invariant(s, c) && o.id in s.operations && s.operations[o.id] == o && !o.IsTerminal()
    ensures o.resourceID in s.resources && RowsAfterSuccess(s, o.resourceID, o).Ok?
  {
    hide Books, Bound, Graph.Acyclic, DesiredGraph;
    NothingFailed(s, c, o);
    assert Links(s, c);
    if o.resourceID in s.desired {
      assert RowsOk(s, c, o.resourceID, s.desired[o.resourceID], s.resources[o.resourceID].resource.generation);
    }
  }
}
