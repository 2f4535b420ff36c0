/** What the checks against corrupt records refuse, for any records at all. In reachable
    states they never fire. */
module Defences {
  import opened Admission
  import opened AdmissionRules
  import opened Basics
  import opened Convergence
  import opened Dependencies
  import opened Domain
  import opened Finishing
  import opened Lifecycle
  import opened LifecycleRuns
  import opened Ordering
  import OutputMeaning
  import opened Outputs
  import opened Provisioning
  import opened References
  import opened Store

  // ------------------------------------------------------------------- admission

  /** The execution was admitted for this operation of this resource, as it is now. */
  predicate Matches(rec: Record, o: Operation, x: Intent) {
    x == Intent(o.id, rec.provisionerRef, rec.resource.id, rec.resource.typeRef, o.capability, o.targetGeneration, rec.resource.spec, x.recoverySource)
  }

  /** A retry is only admitted of an execution that matches its operation and resource. */
  lemma RetryChecksProvenance(s: Records, c: Catalog, q: RetryRequest)
    requires AdmittedAnew(AdmitRetry(s, c, q))
    ensures q.source in s.operations && s.operations[q.source].resourceID in s.resources
    ensures var o := s.operations[q.source];
            var rec := s.resources[o.resourceID];
            && o.id in s.executions && Matches(rec, o, s.executions[o.id].intent)
            && o.targetGeneration == rec.resource.generation == q.expectedGeneration
  {
    hide Replay, Request, EvidenceAccepted, RecoveryAdmissible, Persist, ActiveFor, LatestFor, MappingSelected, RetryExecution;
  }

  /** No admitted operation claims to retry anything but a failed operation of its own
      resource, capability and target, and none takes an identity in use. */
  lemma PersistChecksSource(s: Records, rec: Record, t: Transition, x: Execution, desired: EdgeTable, q: Caller, kind: string, updated: bool)
    ensures Persist(s, rec, t, x, desired, q, kind, updated).Ok? <==>
              && t.operation.id !in s.operations && t.operation.id !in s.executions
              && (t.operation.retryOf == "" ||
                  (t.operation.retryOf in s.operations
                   && var f := s.operations[t.operation.retryOf];
                   && f.state == OpFailed
                   && (f.resourceID, f.capability, f.targetGeneration) == (t.operation.resourceID, t.operation.capability, t.operation.targetGeneration)))
    ensures Persist(s, rec, t, x, desired, q, kind, updated).Err? ==> Persist(s, rec, t, x, desired, q, kind, updated) == Err(Conflict)
  {
    hide AddOperation, BindingOf;
  }

  /** A key only ever answers with an operation whose records belong together. */
  lemma ReplayChecksRecords(s: Records, q: Caller, kind: string, oid: OperationID)
    requires Replay(s, KeyOf(q), q.fingerprint, kind) == Ok(Some(oid))
    ensures q.key != "" && BindingKey(q.scope, q.key) in s.bindings
    ensures var b := s.bindings[BindingKey(q.scope, q.key)];
            && b.operationID == oid && b.fingerprint == q.fingerprint && b.kind == kind
            && oid in s.operations && oid in s.executions && b.resourceID in s.resources
            && s.operations[oid].id == oid && s.resources[b.resourceID].resource.id == b.resourceID == s.operations[oid].resourceID
            && ContextFits(s.resources[b.resourceID], s.operations[oid], s.executions[oid].intent)
  {
    hide ContextFits, EvidenceAccepted, NeedsEvidence;
  }

  /** A delete reports a row that names its target from a source that is deleted or missing. */
  lemma DeleteChecksRows(s: Records, c: Catalog, q: ExistingRequest)
    requires q.id in s.resources && s.resources[q.id].resource.typeRef in c
    ensures AdmitDelete(s, c, q) == Err(InvariantBroken) <==> InboundCorrupt(s, q.id)
    ensures AdmitDelete(s, c, q) == Err(InUse) <==> HasInbound(s, q.id) && !InboundCorrupt(s, q.id)
  {
    hide Request, ActiveFor, InboundCorrupt, HasInbound, AddOperation, BindingOf;
  }

  // ------------------------------------------------------------------------ gate

  /** The class of any target, from its record, the search for work in progress, and the
      published snapshot. */
  lemma ClassifyExactly(s: Records, c: Catalog, id: ResourceID)
    requires id in s.resources
    ensures var rec, busy := s.resources[id], ActiveFor(s, id).Some?;
            && (Classify(s, c, id).DependencyBroken? <==> rec.status.state !in {RsPending, RsUnknown, RsFailed, RsReady})
            && (Classify(s, c, id).DependencyTerminal? <==> rec.status.state == RsFailed && !busy)
            && (Classify(s, c, id).DependencyReady? <==>
                  && rec.status.state == RsReady && !busy
                  && (exists cond :: cond in rec.status.conditions && cond.kind == CondReconciled && cond.status == CTrue
                                     && cond.observedGeneration == rec.resource.generation)
                  && (RequiresPublishedOutputs(c, rec.resource.typeRef) ==>
                        id in s.outputs && s.outputs[id].snapshot.observedGeneration == rec.resource.generation))
  {
    hide ActiveFor, RequiresPublishedOutputs;
    var cs, g := s.resources[id].status.conditions, s.resources[id].resource.generation;
    if exists cond :: cond in cs && cond.kind == CondReconciled && cond.status == CTrue && cond.observedGeneration == g {
      var cond :| cond in cs && cond.kind == CondReconciled && cond.status == CTrue && cond.observedGeneration == g;
      var i :| 0 <= i < |cs| && cs[i] == cond;
      assert cs[i].status.CTrue?;
    }
    if ReconciledFor(cs, g) {
      var i :| 0 <= i < |cs| && cs[i].kind == CondReconciled && cs[i].status.CTrue? && cs[i].observedGeneration == g;
      assert cs[i] in cs;
    }
  }

  /** A type requires published outputs exactly when its contract has a required field. */
  lemma OutputsRequiredExactly(c: Catalog, t: TypeRef)
    ensures RequiresPublishedOutputs(c, t) <==>
              t in c && c[t].outputs.Some? && exists f :: f in c[t].outputs.value.fields && f.requiredWhenReady
  {
    hide RequiresOutputs;
    if t in c && c[t].outputs.Some? {
      OutputMeaning.RequiresExactly(c[t].outputs.value);
    }
  }


  predicate RowStale(edges: seq<Edge>, generation: nat) {
    exists e :: e in edges && e.generation != generation
  }

  lemma StaleRows(edges: seq<Edge>, generation: nat)
    ensures RowsCurrent(edges, generation) <==> !RowStale(edges, generation)
  {
    assert forall i :: 0 <= i < |edges| ==> edges[i] in edges;
  }

  /** The gate of any resource: skipped without references, and otherwise closed by an unknown
      type, a row of another generation or a missing target, in this order. */
  lemma GateExactly(s: Records, c: Catalog, id: ResourceID)
    requires id in s.resources
    ensures var rec, edges, gate := s.resources[id], EdgesAt(s.desired, id), EvaluateDependencies(s, c, id);
            && (gate == GateUnknownType <==> rec.resource.typeRef !in c)
            && (rec.resource.typeRef in c ==>
                  var referring := c[rec.resource.typeRef].references.Some?;
                  && (gate == NotGated <==> !referring || edges == [])
                  && (gate == GateCorrupt <==> referring && RowStale(edges, rec.resource.generation))
                  && (gate == GateTargetMissing <==>
                        && referring && edges != [] && !RowStale(edges, rec.resource.generation)
                        && exists e :: e in edges && e.target !in s.resources))
  {
    hide DistinctTargets, Classify, JoinAll, NotReady, RowStale, RowsCurrent;
    var edges := EdgesAt(s.desired, id);
    StaleRows(edges, s.resources[id].resource.generation);
    assert edges == [] ==> RowsCurrent(edges, s.resources[id].resource.generation) by { NoRows(s.resources[id].resource.generation); }
    MissingTargets(s, edges);
  }

  lemma NoRows(generation: nat)
    ensures RowsCurrent([], generation)
  {
  }

  lemma MissingTargets(s: Records, edges: seq<Edge>)
    ensures (exists i :: 0 <= i < |DistinctTargets(edges)| && DistinctTargets(edges)[i] !in s.resources) <==>
              exists e :: e in edges && e.target !in s.resources
  {
    hide DistinctTargets;
    TargetsAreDistinctTargets(edges);
    var ts := DistinctTargets(edges);
    if exists i :: 0 <= i < |ts| && ts[i] !in s.resources {
      var i :| 0 <= i < |ts| && ts[i] !in s.resources;
      assert ts[i] in ts;
      assert Targets(edges, ts[i]);
      var j :| 0 <= j < |edges| && edges[j].target == ts[i];
      assert edges[j] in edges;
    }
    if exists e :: e in edges && e.target !in s.resources {
      var e :| e in edges && e.target !in s.resources;
      var j :| 0 <= j < |edges| && edges[j] == e;
      assert Targets(edges, e.target);
      assert e.target in ts;
    }
  }

  // --------------------------------------------------------------------- success

  /** A success of the current generation refuses rows of another one. */
  lemma SuccessChecksRows(s: Records, id: ResourceID, o: Operation)
    requires id in s.resources
    ensures var r := RowsAfterSuccess(s, id, o);
            && (r == Err(CorruptRows) <==>
                  && o.capability != Delete && o.targetGeneration == s.resources[id].resource.generation
                  && RowStale(EdgesAt(s.desired, id), o.targetGeneration))
            && (r.Ok? && o.capability != Delete ==> r.value.0 == s.desired)
            && (r.Ok? && o.capability != Delete && o.targetGeneration != s.resources[id].resource.generation ==> r.value.1 == s.applied)
  {
    hide RowStale, RowsCurrent, PutEdges;
    StaleRows(EdgesAt(s.desired, id), o.targetGeneration);
  }
}
