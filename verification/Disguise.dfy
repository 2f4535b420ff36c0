/** What an edge in disguise does to the records: an update that the application admits
    although it names a resource that does not exist. */
module Disguise {
  import opened Admission
  import opened AdmissionFacts
  import opened Basics
  import opened Cells
  import opened ControlPlane
  import opened DeleteRetry
  import opened Domain
  import opened Lifecycle
  import opened Provisioning
  import opened References
  import opened Rows
  import opened Store
  import LifecycleRuns

  function SplitSlot(): string { ['a', '\0', 'b'] }
  function SplitTarget(): string { ['b', '\0', 'c'] }

  function Stored(g: nat): seq<Edge> { [Edge("a", SplitTarget(), g)] }
  function Submission(): Submitted { map[SplitSlot() := ["c"]] }
  function Submittal(): seq<Edge> { [Edge(SplitSlot(), "c", 0)] }

  /** Replaces the stored reference by one that shares its key. */
  function Replacement(s: Records, id: ResourceID, operationID: OperationID, eventID: EventID): ExistingRequest
    requires id in s.resources
  {
    ExistingRequest(Anyone({}), id, s.resources[id].resource.generation, UpdateTo(Spec(""), Some(Submission())), operationID, eventID,
                    Now(s, id), true, true)
  }

  /** A ready resource at rest whose type declares both slots and supports updates, with
      the one stored reference. */
  ghost predicate Exposed(s: Records, c: Catalog, id: ResourceID) {
    && Invariant(s, c) && id in s.resources && LatestFor(s, id).Some? && LatestFor(s, id).value.IsTerminal()
    && s.resources[id].status.state.RsReady? && s.resources[id].resource.generation < MAX_UINT64
    && id in s.desired && s.desired[id] == Stored(s.resources[id].resource.generation)
    && var t := s.resources[id].resource.typeRef;
    && t in c && Update in c[t].supported && c[t].references.Some? && ContractWellFormed(c[t].references.value)
    && FindSlot(c[t].references.value.slots, SplitSlot()).Some?
  }

  lemma SubmissionIsCanonical()
    ensures CanonicalOf(Submission()) == Some(Submittal())
  {
    CompletedIsCanonical(Submission(), Submittal());
  }

  lemma SubmissionIsInShape(contract: ReferenceContract, id: ResourceID)
    requires ContractWellFormed(contract) && FindSlot(contract.slots, SplitSlot()).Some? && id != "c"
    ensures ShapeAccepts(Some(contract), id, Submittal())
  {
    assert Submittal()[..0] == [];
    assert CountSlot(Submittal(), SplitSlot()) == 1;
  }

  lemma NothingToCheck(s: Records, c: Catalog, q: ExistingRequest)
    requires q.id in s.resources && q == Replacement(s, q.id, q.operationID, q.eventID) && Exposed(s, c, q.id) && q.id != "c"
    ensures CanonicalOf(q.change.references.value) == Some(Submittal())
    ensures UpdateReferencesError(s, c, q).None? && Disguising(s, q)
    ensures EffectiveDesired(s, c, q) == Submittal()
  {
    hide Invariant, CanonicalOf, Submission, ShapeAccepts;
    var rec := s.resources[q.id];
    SubmissionIsCanonical();
    SubmissionIsInShape(c[rec.resource.typeRef].references.value, q.id);
    DisguisedReplacement(rec.resource.generation);
  }

  lemma UpdatedAtRest(s: Records, c: Catalog, id: ResourceID, spec: Spec, u: Resource)
    requires Exposed(s, c, id) && UpdateSpec(s.resources[id].resource, spec, Now(s, id)) == Ok(u)
    ensures LifecycleRuns.Coherent(LifecycleRuns.World(u, s.resources[id].status, LatestFor(s, id)))
    ensures ActiveFor(s, id).None? && ActiveCapability(s.resources[id].status).None? && s.resources[id].resource.id == id
    ensures s.resources[id].status.observedGeneration < u.generation
    ensures s.executions.Keys <= s.operations.Keys && 1 <= s.resources[id].resource.generation
  {
    hide Books, Links, Bound, CellOk, LifecycleRuns.Coherent, ContextFits;
    AtRest(s, c, id);
    LatestInBooks(s, c, id);
    var rec := s.resources[id];
    var w := LifecycleRuns.World(rec.resource, rec.status, LatestFor(s, id));
    LifecycleRuns.StepKeepsCoherent(w, LifecycleRuns.DoUpdateSpec(spec, Now(s, id)));
    LifecycleRuns.CoherentBounds(w);
  }

  lemma ReplacementIsPersisted(s: Records, c: Catalog, q: ExistingRequest)
    requires q.id in s.resources && q == Replacement(s, q.id, q.operationID, q.eventID) && Exposed(s, c, q.id) && q.id != "c"
    requires Usable(s, q.operationID, q.eventID)
    ensures q.change.references.Some? && CanonicalOf(q.change.references.value).Some?
    ensures AdmitUpdate(s, c, q).Ok? && AdmitExisting(s, c, q) == AdmitUpdate(s, c, q)
  {
    hide Invariant, CanonicalOf, Submission, UpdateReferencesError, EffectiveDesired, Disguising, LifecycleRuns.Coherent, ActiveFor, Request,
         Stored, Submittal;
    NothingToCheck(s, c, q);
    var rec := s.resources[q.id];
    var u := UpdateSpec(rec.resource, q.change.spec, q.at).value;
    UpdatedAtRest(s, c, q.id, q.change.spec, u);
    var supported := c[rec.resource.typeRef].supported;
    RequestIsAccepted(LifecycleRuns.World(u, rec.status, LatestFor(s, q.id)), None, supported, Update, q.operationID, q.eventID, q.at);
    RequestStarts(u, supported, rec.status, None, Update, q.operationID, q.eventID, q.at);
    RequestIsNoRetry(u, supported, rec.status, Update, q.operationID, q.eventID, q.at);
  }

  /** The update is admitted, and its row names a resource that does not exist. */
  lemma DisguisedUpdateBreaksRows(s: Records, c: Catalog, id: ResourceID, operationID: OperationID, eventID: EventID)
    requires Exposed(s, c, id) && id != "c" && "c" !in s.resources && Usable(s, operationID, eventID)
    ensures var q := Replacement(s, id, operationID, eventID);
            && Disguising(s, q) && AdmitExisting(s, c, q).Ok?
            && var n := AdmitExisting(s, c, q).value.records;
            NamedBy(n.desired, "c") && "c" !in n.resources && !Invariant(n, c)
  {
    hide Invariant, CanonicalOf, Submission, UpdateReferencesError, EffectiveDesired, Disguising, AdmitUpdate, Addable, Persist, Exposed;
    ExposedIsInvariant(s, c, id);
    var q := Replacement(s, id, operationID, eventID);
    NothingToCheck(s, c, q);
    ReplacementIsPersisted(s, c, q);
    var rec, t := UpdateTransition(s, c, q);
    var n := AdmitExisting(s, c, q).value.records;
    PersistWrites(s, rec, t, NewExecution(rec, t.operation), DesiredAfter(s, rec, Some(Submittal())), q.caller, UpdateKind(), true);
    PersistKeepsOthers(s, rec, t, NewExecution(rec, t.operation), DesiredAfter(s, rec, Some(Submittal())), q.caller, UpdateKind(), true);
    assert n.desired[id][0].target == "c";
    assert Targets(n.desired[id], "c");
    MissingTargetBreaksRows(n, c, id);
  }

  lemma ExposedIsInvariant(s: Records, c: Catalog, id: ResourceID)
    requires Exposed(s, c, id)
    ensures Invariant(s, c) && id in s.resources && s.resources[id].resource.typeRef in c
  {
  }

  lemma PersistKeepsOthers(s: Records, rec: Record, t: Transition, x: Execution, desired: EdgeTable, q: Caller, kind: string, updated: bool)
    requires Persist(s, rec, t, x, desired, q, kind, updated).Ok?
    ensures Persist(s, rec, t, x, desired, q, kind, updated).value.records.resources.Keys == s.resources.Keys + {rec.resource.id}
  {
  }

  lemma MissingTargetBreaksRows(n: Records, c: Catalog, id: ResourceID)
    requires id in n.desired && Targets(n.desired[id], "c") && "c" !in n.resources
    ensures !Invariant(n, c)
  {
    hide Books, Bound;
  }
}
