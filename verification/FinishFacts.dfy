/** Terminal steps: what they keep, and how outputs decide them. */
module FinishFacts {
  import opened AdmissionFacts
  import opened Basics
  import opened Cells
  import opened Convergence
  import opened ConvergenceFacts
  import opened Dependencies
  import opened Domain
  import opened Finishing
  import opened Graph
  import opened Lifecycle
  import opened Outputs
  import opened Provisioning
  import opened References
  import opened Rows
  import opened Store
  import Submission

  // ------------------------------------------------------------------- evidence

  lemma EvidenceKeepsInvariant(s: Records, c: Catalog, x: Execution, n: Records)
    requires Invariant(s, c) && RecordEvidence(s, x) == Ok(n)
    ensures Invariant(n, c) && SameRows(s, n) && n.resources == s.resources && n.operations == s.operations
  {
    hide Invariant;
    ExecutionKeepsInvariant(s, c, x.intent.operationID, x);
  }

  lemma ExecutionKeepsInvariant(s: Records, c: Catalog, oid: OperationID, x: Execution)
    requires Invariant(s, c) && oid in s.operations && oid in s.executions && x.intent == s.executions[oid].intent
    ensures Invariant(s.(executions := s.executions[oid := x]), c)
  {
    hide Invariant, Books, Links, Bound;
    InvariantParts(s, c);
    ExecutionKeepsBooks(s, c, oid, x);
    ExecutionKeepsRest(s, c, oid, x);
    InvariantFrom(s.(executions := s.executions[oid := x]), c);
  }

  lemma ExecutionKeepsRest(s: Records, c: Catalog, oid: OperationID, x: Execution)
    requires Links(s, c) && Bound(s)
    ensures Links(s.(executions := s.executions[oid := x]), c) && Bound(s.(executions := s.executions[oid := x]))
  {
    hide Acyclic, DesiredGraph, RowsOk;
    var n := s.(executions := s.executions[oid := x]);
    forall id, edges, g | RowsOk(s, c, id, edges, g)
      ensures RowsOk(n, c, id, edges, g)
    {
      RowsIgnoreExecutions(s, n, c, id, edges, g);
    }
  }

  lemma RowsIgnoreExecutions(s: Records, n: Records, c: Catalog, id: ResourceID, edges: seq<Edge>, g: nat)
    requires RowsOk(s, c, id, edges, g) && n.resources == s.resources
    ensures RowsOk(n, c, id, edges, g)
  {
  }

  lemma ExecutionKeepsBooks(s: Records, c: Catalog, oid: OperationID, x: Execution)
    requires Books(s, c) && oid in s.operations && oid in s.executions && x.intent == s.executions[oid].intent
    ensures Books(s.(executions := s.executions[oid := x]), c)
  {
    hide ResourceOk, OperationOk;
    var n := s.(executions := s.executions[oid := x]);
    forall id | id in n.resources
      ensures ResourceOk(n, c, id)
    {
      ResourceIgnoresExecutions(s, n, c, id);
    }
    forall p | p in n.operations
      ensures OperationOk(n, p)
    {
      ExecutionOf(s, p);
      OperationIgnoresEvidence(s, n, p);
    }
  }

  lemma ExecutionOf(s: Records, oid: OperationID)
    requires OperationOk(s, oid)
    ensures oid in s.executions
  {
  }

  lemma InvariantFrom(s: Records, c: Catalog)
    requires Books(s, c) && Links(s, c) && Bound(s)
    ensures Invariant(s, c)
  {
  }

  lemma ResourceIgnoresExecutions(s: Records, n: Records, c: Catalog, id: ResourceID)
    requires ResourceOk(s, c, id) && n == s.(executions := n.executions)
    ensures ResourceOk(n, c, id)
  {
    hide CellOk;
  }

  lemma OperationIgnoresEvidence(s: Records, n: Records, oid: OperationID)
    requires OperationOk(s, oid) && n == s.(executions := n.executions)
    requires oid in n.executions && n.executions[oid].intent == s.executions[oid].intent
    ensures OperationOk(n, oid)
  {
  }

  // -------------------------------------------------------------------- failures

  /** What a terminal step did to its own resource and left alone elsewhere. */
  ghost predicate Finished(s: Records, n: Records, o: Operation, succeeded: bool) {
    var id := o.resourceID;
    && OthersStand(s, n, id) && id in n.resources && o.id in n.operations
    && n.operations[o.id].IsTerminal() && (succeeded <==> n.operations[o.id].state.OpSucceeded?)
    && !n.resources[id].status.state.RsDeleting?
    && (n.resources[id].status.state.RsDeleted? <==> succeeded && o.capability.Delete?)
  }

  lemma DriftElsewhere(s: Records, id: ResourceID, f: ObservedFacts, anew: bool)
    ensures var d := DriftAfter(s, id, f, anew);
            && (forall other :: other != id ==> (other in d <==> other in s.driftSeen))
            && (id in d <==> ReportsDrift(f) || (!anew && id in s.driftSeen))
  {
  }

  /** The operation a terminal step takes in hand. */
  predicate InHand(s: Records, o: Operation, x: Execution) {
    && o.id in s.operations && s.operations[o.id] == o && !o.IsTerminal()
    && o.id in s.executions && x.intent == s.executions[o.id].intent && o.resourceID in s.resources
  }

  lemma FailedKeepsInvariant(s: Records, c: Catalog, o: Operation, x: Execution, finish: Finish, at: Time, n: Records)
    requires Invariant(s, c) && InHand(s, o, x) && !finish.succeeded
    requires FinishFailed(s, o.resourceID, o, x, finish, at) == Ok(n)
    ensures Invariant(n, c) && SameRows(s, n) && Finished(s, n, o, false)
  {
    hide Books, Links, Bound, CellOk, BuildFinishEvidence, UpdatesOf, PublishedOf, ContextFits, ReportsDrift, Sanitized, DriftAfter;
    var id := o.resourceID;
    WorkInHand(s, c, o.id);
    var rec := s.resources[id];
    var done := BuildFinishEvidence(o, rec.resource, rec.status, finish, Aligned(at, rec)).value;
    var drift := DriftAfter(s, id, Sanitized(finish.facts), false);
    FinishedCell(c, rec, o, UpdatesOf(s, id), id in s.driftSeen, PublishedOf(s, id), finish, Aligned(at, rec), done, PublishedOf(s, id));
    FailureIsNotDeleting(rec, o, finish, Aligned(at, rec), done);
    DriftElsewhere(s, id, Sanitized(finish.facts), false);
    PublishedIs(s, id);
    MoveKeepsInvariant(s, c, id, done.status, done.operation, AlignedExecution(x, at, rec), s.outputs, drift);
  }

  lemma RejectedKeepsInvariant(s: Records, c: Catalog, o: Operation, x: Execution, detail: string, at: Time, n: Records)
    requires Invariant(s, c) && InHand(s, o, x)
    requires FinishRejected(s, o.resourceID, o, x, detail, at) == Ok(n)
    ensures Invariant(n, c) && SameRows(s, n) && Finished(s, n, o, false)
  {
    hide Books, Links, Bound, CellOk, BuildFinishEvidence, UpdatesOf, PublishedOf, ContextFits, RejectionReason;
    var id := o.resourceID;
    WorkInHand(s, c, o.id);
    var rec := s.resources[id];
    var finish := Finish(false, RejectionReason(), detail, NO_FACTS);
    var done := BuildFinishEvidence(o, rec.resource, rec.status, finish, at).value;
    FinishedCell(c, rec, o, UpdatesOf(s, id), id in s.driftSeen, PublishedOf(s, id), finish, at, done, PublishedOf(s, id));
    FailureIsNotDeleting(rec, o, finish, at, done);
    assert !ReportsDrift(Sanitized(NO_FACTS));
    PublishedIs(s, id);
    MoveKeepsInvariant(s, c, id, done.status, done.operation,
                       x.(state := AttemptSucceeded,
                          outputs := x.outputs.(resolution := ResolutionRejected, failure := Some(Failure(RejectionReason(), detail)))),
                       s.outputs, s.driftSeen);
  }

  /** A rejected postcondition fails the operation and nothing else: the attempt stays
      succeeded and no snapshot is stored. */
  lemma RejectedRecords(s: Records, o: Operation, x: Execution, detail: string, at: Time, n: Records)
    requires o.resourceID in s.resources && FinishRejected(s, o.resourceID, o, x, detail, at) == Ok(n)
    ensures o.id in n.operations && n.operations[o.id].state.OpFailed?
    ensures n.operations[o.id].failure == Some(Failure(RejectionReason(), detail))
    ensures o.id in n.executions && n.executions[o.id].state.AttemptSucceeded? && n.outputs == s.outputs
  {
    hide BuildFinishEvidence, RejectionReason;
    var rec := s.resources[o.resourceID];
    var finish := Finish(false, RejectionReason(), detail, NO_FACTS);
    EngineTime(o, rec.resource, rec.status, finish, at);
    EngineOutcomeState(o, rec.resource, rec.status, finish, at);
  }

  // ------------------------------------------------------------------- successes

  /** Whether a success brings what its type requires. */
  predicate OutputsBrought(c: Catalog, t: TypeRef, o: Operation, snapshot: Option<ResourceOutputs>) {
    && (snapshot.Some? ==> snapshot.value.observedGeneration == o.targetGeneration && !o.capability.Delete?)
    && (RequiresPublishedOutputs(c, t) && !o.capability.Delete? ==>
          snapshot.Some? && Meets(c[t].outputs.value, snapshot.value.values))
  }

  lemma PublishReplaces(s: Records, c: Catalog, rec: Record, o: Operation, snapshot: ResourceOutputs, mappingRef: string)
    requires PublishedOk(rec, o, PublishedOf(s, rec.resource.id)) && !o.IsTerminal() && !o.capability.Delete?
    requires snapshot.observedGeneration == rec.resource.generation
    ensures Publish(s.outputs, rec.resource.id, Published(o.id, mappingRef, snapshot)) ==
              Some(s.outputs[rec.resource.id := Published(o.id, mappingRef, snapshot)])
  {
  }

  lemma CellPublished(c: Catalog, rec: Record, o: Operation, updates: nat, drifted: bool, published: Option<Published>)
    requires CellOk(c, rec, o, updates, drifted, published)
    ensures PublishedOk(rec, o, published)
  {
  }

  /** In every reachable state, success finds the desired rows at its own generation and
      never contradicts a published snapshot. */
  lemma SuccessIsNeverContradicted(s: Records, c: Catalog, o: Operation, x: Execution, snapshot: Option<ResourceOutputs>)
    requires Invariant(s, c) && InHand(s, o, x) && OutputsBrought(c, s.resources[o.resourceID].resource.typeRef, o, snapshot)
    ensures RowsAfterSuccess(s, o.resourceID, o) ==
              Ok(if o.capability.Delete? then (s.desired - {o.resourceID}, s.applied - {o.resourceID})
                 else (s.desired, PutEdges(s.applied, o.resourceID, o.targetGeneration, EdgesAt(s.desired, o.resourceID))))
    ensures snapshot.Some? ==>
              Publish(s.outputs, o.resourceID, Published(o.id, x.outputs.mappingRef, snapshot.value)) ==
                Some(s.outputs[o.resourceID := Published(o.id, x.outputs.mappingRef, snapshot.value)])
  {
    hide Acyclic, DesiredGraph, Books, CellOk, PutEdges, Meets;
    var id := o.resourceID;
    WorkInHand(s, c, o.id);
    assert id in s.desired ==> RowsOk(s, c, id, s.desired[id], s.resources[id].resource.generation);
    if snapshot.Some? {
      CellPublished(c, s.resources[id], o, UpdatesOf(s, id), id in s.driftSeen, PublishedOf(s, id));
      PublishReplaces(s, c, s.resources[id], o, snapshot.value, x.outputs.mappingRef);
    }
  }

  function PublishedAfter(s: Records, id: ResourceID, o: Operation, x: Execution, snapshot: Option<ResourceOutputs>): map<ResourceID, Published> {
    if snapshot.Some? then s.outputs[id := Published(o.id, x.outputs.mappingRef, snapshot.value)] else s.outputs
  }

  lemma SucceededMovable(s: Records, c: Catalog, o: Operation, x: Execution, finish: Finish, snapshot: Option<ResourceOutputs>, at: Time,
                         done: Transition, y: Execution)
    requires Invariant(s, c) && InHand(s, o, x) && finish.succeeded && y.intent == x.intent
    requires OutputsBrought(c, s.resources[o.resourceID].resource.typeRef, o, snapshot)
    requires BuildFinishEvidence(o, s.resources[o.resourceID].resource, s.resources[o.resourceID].status, finish, at) == Ok(done)
    ensures var id := o.resourceID;
            Movable(s, c, id, done.status, done.operation, y, PublishedAfter(s, id, o, x, snapshot), DriftAfter(s, id, Sanitized(finish.facts), true))
    ensures done.operation.IsTerminal() && done.operation.state.OpSucceeded? && done.operation.id == o.id
    ensures !done.status.state.RsDeleting? && (done.status.state.RsDeleted? <==> o.capability.Delete?)
  {
    hide Books, Links, Bound, CellOk, BuildFinishEvidence, UpdatesOf, PublishedOf, ContextFits, ReportsDrift, Sanitized, DriftAfter, Meets;
    var id := o.resourceID;
    WorkInHand(s, c, o.id);
    var rec := s.resources[id];
    var now := if snapshot.Some? then Some(Published(o.id, x.outputs.mappingRef, snapshot.value)) else PublishedOf(s, id);
    FinishedCell(c, rec, o, UpdatesOf(s, id), id in s.driftSeen, PublishedOf(s, id), finish, at, done, now);
    FailureIsNotDeleting(rec, o, finish, at, done);
    DriftElsewhere(s, id, Sanitized(finish.facts), true);
    PublishedIs(s, id);
    BooksKeys(s, c);
  }

  lemma BooksKeys(s: Records, c: Catalog)
    requires Books(s, c)
    ensures s.outputs.Keys <= s.resources.Keys
  {
  }

  lemma SucceededKeepsInvariant(s: Records, c: Catalog, o: Operation, x: Execution, finish: Finish, snapshot: Option<ResourceOutputs>,
                                at: Time, n: Records)
    requires Invariant(s, c) && InHand(s, o, x) && finish.succeeded
    requires OutputsBrought(c, s.resources[o.resourceID].resource.typeRef, o, snapshot)
    requires FinishSucceeded(s, o.resourceID, o, x, finish, snapshot, at) == Ok(n)
    ensures Invariant(n, c) && Finished(s, n, o, true)
    ensures n.desired == (if o.capability.Delete? then s.desired - {o.resourceID} else s.desired)
    ensures n.applied == (if o.capability.Delete? then s.applied - {o.resourceID}
                          else PutEdges(s.applied, o.resourceID, o.targetGeneration, EdgesAt(s.desired, o.resourceID)))
    ensures n.outputs == PublishedAfter(s, o.resourceID, o, x, snapshot)
  {
    hide Books, Links, Bound, CellOk, BuildFinishEvidence, Sanitized, DriftAfter, Meets, PutEdges, Publish, RowsAfterSuccess, Movable,
         OutputsBrought, Evolves, MaxTime, ContextFits, UpdatesOf, PublishedOf;
    var id := o.resourceID;
    WorkInHand(s, c, o.id);
    var rec := s.resources[id];
    var done := BuildFinishEvidence(o, rec.resource, rec.status, finish, Aligned(at, rec)).value;
    SuccessIsNeverContradicted(s, c, o, x, snapshot);
    var rows := RowsAfterSuccess(s, id, o).value;
    var y := AlignedExecution(x, at, rec);
    var z := y.(outputs := y.outputs.(resolution := if snapshot.Some? then ResolutionPublished else ResolutionNone));
    var outputs := PublishedAfter(s, id, o, x, snapshot);
    var drift := DriftAfter(s, id, Sanitized(finish.facts), true);
    SucceededMovable(s, c, o, x, finish, snapshot, Aligned(at, rec), done, z);
    assert n == MoveOperation(s, id, done.status, done.operation, z, rows.0, rows.1, outputs, drift);
    MoveKeepsBooks(s, c, id, done.status, done.operation, z, rows.0, rows.1, outputs, drift);
    MoveEvolves(s, id, done.status, done.operation, z, rows.0, rows.1, outputs, drift);
    MovedOperation(s, c, id, done.status, done.operation, z, outputs, drift);
    MoveKeepsBound(s, id, done.status, done.operation, z, rows.0, rows.1, outputs, drift);
    SuccessKeepsOthers(s, n, o);
    SuccessKeepsLinks(s, n, c, o);
  }

  lemma SuccessKeepsOthers(s: Records, n: Records, o: Operation)
    requires n.desired == if o.capability.Delete? then s.desired - {o.resourceID} else s.desired
    requires n.applied == if o.capability.Delete? then s.applied - {o.resourceID}
                          else PutEdges(s.applied, o.resourceID, o.targetGeneration, EdgesAt(s.desired, o.resourceID))
    requires OthersStand(s, n, o.resourceID)
    ensures OthersKept(s, n, o.resourceID)
  {
  }

  lemma MovedOperation(s: Records, c: Catalog, id: ResourceID, status: ResourceStatus, o: Operation, x: Execution,
                       outputs: map<ResourceID, Published>, drift: set<ResourceID>)
    requires Movable(s, c, id, status, o, x, outputs, drift)
    ensures o.id in s.operations && o.resourceID == s.operations[o.id].resourceID
  {
    hide CellOk;
  }

  lemma SuccessKeepsLinks(s: Records, n: Records, c: Catalog, o: Operation)
    requires Links(s, c) && Evolves(s, n) && OthersKept(s, n, o.resourceID)
    requires o.resourceID in s.resources && o.resourceID in n.resources
    requires o.targetGeneration == s.resources[o.resourceID].resource.generation == n.resources[o.resourceID].resource.generation
    requires n.resources[o.resourceID].status.state.RsDeleted? <==> o.capability.Delete?
    requires n.desired == if o.capability.Delete? then s.desired - {o.resourceID} else s.desired
    requires n.applied == if o.capability.Delete? then s.applied - {o.resourceID}
                          else PutEdges(s.applied, o.resourceID, o.targetGeneration, EdgesAt(s.desired, o.resourceID))
    ensures Links(n, c)
  {
    hide Evolves, Acyclic, DesiredGraph;
    var id := o.resourceID;
    if o.capability.Delete? {
      RemovalStaysAcyclic(s.desired, id);
    } else {
      DesiredPersist(s, n, c, id);
      if id in s.desired {
        StampedIsSame(s.desired[id], o.targetGeneration);
      }
    }
    LinksAfterWrite(s, n, c, id);
  }

  lemma StampedIsSame(edges: seq<Edge>, g: nat)
    requires RowsCurrent(edges, g)
    ensures Stamped(edges, g) == edges
  {
  }

  // --------------------------------------------------------------- any finish

  lemma PlanBrings(c: Catalog, rec: Record, o: Operation, x: Execution, evidence: Option<OutputEvidence>, at: Time)
    requires ContextFits(rec, o, x.intent) && x.intent.typeRef in c && EvidenceRepresentable(evidence)
    ensures var p := PlanTerminalOutputs(c[x.intent.typeRef].outputs, x.intent.capability, evidence, x.intent.targetGeneration, at);
            && (p == Some(PlanNone) ==> OutputsBrought(c, rec.resource.typeRef, o, None))
            && (p.Some? && p.value.PlanPublish? ==> OutputsBrought(c, rec.resource.typeRef, o, Some(p.value.snapshot)))
  {
    hide RequiresOutputs, SnapshotOf, Meets;
    var outputs := c[x.intent.typeRef].outputs;
    var p := PlanTerminalOutputs(outputs, x.intent.capability, evidence, x.intent.targetGeneration, at);
    if p.Some? && p.value.PlanPublish? {
      PublishedMeetsContract(outputs, x.intent.capability, evidence, x.intent.targetGeneration, at);
    }
  }

  lemma FinishIsInHand(s: Records, c: Catalog, x: Execution, finish: Finish, evidence: Option<OutputEvidence>, detail: string, at: Time)
    requires Books(s, c) && FinishOperation(s, c, x, finish, evidence, detail, at).Ok?
    ensures x.intent.operationID in s.operations
    ensures var o := s.operations[x.intent.operationID];
            && InHand(s, o, x) && o.id == x.intent.operationID && ContextFits(s.resources[o.resourceID], o, x.intent)
  {
    hide Books, CellOk, FinishFailed, FinishRejected, FinishSucceeded, PlanTerminalOutputs, EvidenceRepresentable, MappingContradicts,
         UpdatesOf, PublishedOf, ContextFits;
    WorkInHand(s, c, x.intent.operationID);
  }

  /** What a terminal step leaves behind, in every case. */
  lemma FinishKeepsInvariant(s: Records, c: Catalog, x: Execution, finish: Finish, evidence: Option<OutputEvidence>, detail: string,
                             at: Time, n: Records)
    requires Invariant(s, c) && FinishOperation(s, c, x, finish, evidence, detail, at) == Ok(n)
    ensures Invariant(n, c)
    ensures x.intent.operationID in s.operations && InHand(s, s.operations[x.intent.operationID], x)
    ensures Outcome(s, n, s.operations[x.intent.operationID])
  {
    hide Invariant, FinishOperation, Outcome, InHand, ContextFits;
    InvariantParts(s, c);
    FinishIsInHand(s, c, x, finish, evidence, detail, at);
    FinishCases(s, c, x, finish, evidence, detail, at, n, s.operations[x.intent.operationID]);
  }

  /** Either only the execution changed, or the operation failed and the rows stand, or it
      succeeded: a delete then released its rows, a create or update applied them. */
  ghost predicate Outcome(s: Records, n: Records, o: Operation) {
    || (n.operations == s.operations && n.resources == s.resources && SameRows(s, n))
    || (SameRows(s, n) && Finished(s, n, o, false))
    || (Finished(s, n, o, true)
        && n.desired == (if o.capability.Delete? then s.desired - {o.resourceID} else s.desired)
        && n.applied == (if o.capability.Delete? then s.applied - {o.resourceID}
                         else PutEdges(s.applied, o.resourceID, o.targetGeneration, EdgesAt(s.desired, o.resourceID))))
  }

  lemma FinishCases(s: Records, c: Catalog, x: Execution, finish: Finish, evidence: Option<OutputEvidence>, detail: string,
                    at: Time, n: Records, o: Operation)
    requires Invariant(s, c) && FinishOperation(s, c, x, finish, evidence, detail, at) == Ok(n)
    requires InHand(s, o, x) && o.id == x.intent.operationID && ContextFits(s.resources[o.resourceID], o, x.intent)
    ensures Invariant(n, c)
    ensures Outcome(s, n, o)
  {
    hide Invariant, FinishFailed, FinishRejected, FinishSucceeded, Finished, PutEdges, PlanTerminalOutputs, OutputsBrought,
         EvidenceRepresentable, MappingContradicts, ContextFits;
    if !finish.succeeded {
      FailedKeepsInvariant(s, c, o, x, finish, at, n);
    } else {
      PlanBrings(c, s.resources[o.resourceID], o, x, evidence, at);
      var p := PlanTerminalOutputs(c[x.intent.typeRef].outputs, x.intent.capability, evidence, x.intent.targetGeneration, at).value;
      match p
      case PlanDefer =>
        ExecutionKeepsInvariant(s, c, o.id, OutputsDeferred(x));
      case PlanReject(_) => RejectedKeepsInvariant(s, c, o, x, detail, at, n);
      case PlanPublish(snapshot) => SucceededKeepsInvariant(s, c, o, x, finish, Some(snapshot), at, n);
      case PlanNone => SucceededKeepsInvariant(s, c, o, x, finish, None, at, n);
    }
  }

  /** Evidence of success for a create or update of a type that requires outputs. */
  ghost predicate NeedsOutputs(s: Records, c: Catalog, x: Execution, finish: Finish) {
    && Invariant(s, c) && finish.succeeded
    && RequiresPublishedOutputs(c, x.intent.typeRef) && !x.intent.capability.Delete?
  }

  /** Without usable output evidence the operation stays in progress, whatever the backend
      reported; only its attempt is recorded as succeeded and the outputs are asked for again. */
  lemma MissingOutputsDefer(s: Records, c: Catalog, x: Execution, finish: Finish, evidence: Option<OutputEvidence>, detail: string,
                            at: Time, n: Records)
    requires NeedsOutputs(s, c, x, finish) && FinishOperation(s, c, x, finish, evidence, detail, at) == Ok(n)
    requires evidence.None? || evidence.value.state.OutputsUnavailable?
    ensures n == s.(executions := s.executions[x.intent.operationID :=
                      x.(state := AttemptSucceeded, outputs := x.outputs.(resolution := ResolutionPending),
                         nextObservation := if x.nextObservation == 0 then 2 else x.nextObservation + 1)])
    ensures x.intent.operationID in s.operations && !n.operations[x.intent.operationID].IsTerminal()
  {
    hide Invariant, FinishRejected, FinishSucceeded, FinishFailed, RequiresOutputs;
  }

  /** Values that break the contract fail the operation, while the attempt stays succeeded
      and no snapshot is stored. */
  lemma InvalidOutputsFail(s: Records, c: Catalog, x: Execution, finish: Finish, evidence: OutputEvidence, detail: string,
                           at: Time, n: Records)
    requires NeedsOutputs(s, c, x, finish) && FinishOperation(s, c, x, finish, Some(evidence), detail, at) == Ok(n)
    requires evidence.state.OutputsInvalid? ||
             (evidence.state.OutputsAvailable? && !Meets(c[x.intent.typeRef].outputs.value, evidence.values))
    ensures x.intent.operationID in n.operations && n.operations[x.intent.operationID].state.OpFailed?
    ensures x.intent.operationID in n.executions && n.executions[x.intent.operationID].state.AttemptSucceeded?
    ensures n.outputs == s.outputs
  {
    hide Invariant, Books, Links, Bound, FinishRejected, FinishSucceeded, FinishFailed, RequiresOutputs, Meets, ContextFits;
    InvariantParts(s, c);
    FinishIsInHand(s, c, x, finish, Some(evidence), detail, at);
    RejectedRecords(s, s.operations[x.intent.operationID], x, detail, at, n);
  }

  /** Success is recorded only in the very step that stores a snapshot of the target
      generation, and that stored snapshot meets the contract. */
  lemma SuccessStoresOutputs(s: Records, c: Catalog, x: Execution, finish: Finish, evidence: Option<OutputEvidence>, detail: string,
                             at: Time, n: Records)
    requires NeedsOutputs(s, c, x, finish) && FinishOperation(s, c, x, finish, evidence, detail, at) == Ok(n)
    requires x.intent.operationID in n.operations && n.operations[x.intent.operationID].state.OpSucceeded?
    ensures x.intent.operationID in s.operations
    ensures var id := s.operations[x.intent.operationID].resourceID;
            && id in n.outputs && n.outputs[id].operationID == x.intent.operationID
            && n.outputs[id].snapshot.observedGeneration == x.intent.targetGeneration
            && Meets(c[x.intent.typeRef].outputs.value, n.outputs[id].snapshot.values)
  {
    hide Invariant, Books, Links, Bound, FinishRejected, FinishSucceeded, FinishFailed, EvidenceRepresentable, MappingContradicts, Meets, RequiresOutputs,
         OutputsBrought, ContextFits, PlanTerminalOutputs, PublishedAfter, PutEdges, Finished;
    InvariantParts(s, c);
    FinishIsInHand(s, c, x, finish, evidence, detail, at);
    var o := s.operations[x.intent.operationID];
    ContextTypes(s.resources[o.resourceID], o, x.intent);
    PlanBrings(c, s.resources[o.resourceID], o, x, evidence, at);
    var p := PlanTerminalOutputs(c[x.intent.typeRef].outputs, x.intent.capability, evidence, x.intent.targetGeneration, at).value;
    match p
    case PlanDefer =>
    case PlanReject(_) => RejectedRecords(s, o, x, detail, at, n);
    case PlanPublish(snapshot) =>
      SucceededKeepsInvariant(s, c, o, x, finish, Some(snapshot), at, n);
      SucceededIsStored(s, c, n, o, x, finish, snapshot, at);
    case PlanNone => NothingBrought(c, x.intent.typeRef, o);
  }

  lemma ContextTypes(rec: Record, o: Operation, x: Intent)
    requires ContextFits(rec, o, x)
    ensures x.typeRef == rec.resource.typeRef && x.capability == o.capability && x.targetGeneration == o.targetGeneration
  {
  }

  lemma NothingBrought(c: Catalog, t: TypeRef, o: Operation)
    requires OutputsBrought(c, t, o, None)
    ensures o.capability.Delete? || !RequiresPublishedOutputs(c, t)
  {
  }

  lemma SucceededIsStored(s: Records, c: Catalog, n: Records, o: Operation, x: Execution, finish: Finish, snapshot: ResourceOutputs, at: Time)
    requires o.resourceID in s.resources && RequiresPublishedOutputs(c, x.intent.typeRef) && !o.capability.Delete?
    requires FinishSucceeded(s, o.resourceID, o, x, finish, Some(snapshot), at) == Ok(n)
    requires n.outputs == PublishedAfter(s, o.resourceID, o, x, Some(snapshot))
    requires OutputsBrought(c, x.intent.typeRef, o, Some(snapshot))
    ensures o.resourceID in n.outputs && n.outputs[o.resourceID].operationID == o.id && n.outputs[o.resourceID].snapshot == snapshot
    ensures snapshot.observedGeneration == o.targetGeneration && Meets(c[x.intent.typeRef].outputs.value, snapshot.values)
    ensures o.id in n.operations && o.id in n.executions
  {
    hide BuildFinishEvidence, RowsAfterSuccess, DriftAfter, Sanitized, Meets, RequiresOutputs, Publish;
    var rec := s.resources[o.resourceID];
    EngineTime(o, rec.resource, rec.status, finish, Aligned(at, rec));
    EngineOutcomeState(o, rec.resource, rec.status, finish, Aligned(at, rec));
  }

  // ------------------------------------------------- when evidence and outcome meet

  /** The worker finishes at the evidence time, while a submission only moves the recorded
      observation time forward. Later readers, who demand that both agree, are satisfied
      exactly when the evidence was not older than what was recorded, or had to be lifted
      to the persisted state anyway. */
  lemma SubmittedOutcomeMeetsEvidence(x: Execution, a: Attempt, submitted: Observation, error: Option<string>, detail: string,
                                      at: Time, rec: Record)
    requires Submission.InterpretSubmission(x, a, submitted, error, detail, at).finish.Some?
    ensures var y := Submission.InterpretSubmission(x, a, submitted, error, detail, at).execution;
            AlignedExecution(y, at, rec).lastObservedAt == Aligned(at, rec) <==>
              (Submission.EvidenceFresh(x.lastObservedAt, at) || x.lastObservedAt == at || at < Aligned(at, rec))
  {
    hide Submission.FailureFrom, Submission.FactsAcceptable, Submission.MalformedFailure, Submission.StaleFailure, Aligned;
    AlignedIsLater(at, rec);
  }

  /** An observation always moves it, so its outcome and its evidence always agree. */
  lemma ObservedOutcomeMeetsEvidence(x: Execution, a: Attempt, observed: Observation, at: Time, rec: Record)
    requires Submission.InterpretObservation(x, a, observed, at).Ok?
    requires Submission.InterpretObservation(x, a, observed, at).value.finish.Some?
    ensures AlignedExecution(Submission.InterpretObservation(x, a, observed, at).value.execution, at, rec).lastObservedAt == Aligned(at, rec)
  {
    hide Submission.FailureFrom, Submission.FactsAcceptable, Submission.UncorrelatedFailure;
    AlignedIsLater(at, rec);
  }

  lemma AlignedIsLater(at: Time, rec: Record)
    ensures at <= Aligned(at, rec)
  {
  }

  // --------------------------------------------------------- passive observation

  lemma PassiveKeepsInvariant(s: Records, c: Catalog, id: ResourceID, f: ObservedFacts, at: Time, n: Records)
    requires Invariant(s, c) && PassiveObserve(s, id, f, at) == Ok(n)
    ensures Invariant(n, c) && SameRows(s, n) && OthersStand(s, n, id) && n.operations == s.operations
    ensures id in s.resources && id in n.resources
    ensures n.resources[id].status.state == s.resources[id].status.state
            || (!n.resources[id].status.state.RsDeleting? && !n.resources[id].status.state.RsDeleted?)
  {
    hide Books, Links, Bound, CellOk, ApplyObservation, UpdatesOf, PublishedOf, ActiveFor, DriftAfter, ReportsDrift;
    if n != s {
      var rec := s.resources[id];
      CellOf(s, c, id);
      var seen := ApplyObservation(rec.resource, rec.status, f, at).value;
      ObservedCell(c, rec, LatestFor(s, id).value, UpdatesOf(s, id), id in s.driftSeen, PublishedOf(s, id), f, at, seen);
      DriftElsewhere(s, id, f, false);
      StatusKeepsInvariant(s, c, id, seen, DriftAfter(s, id, f, false));
    }
  }
}
