/** Optimistic concurrency over runs: a request only goes through against the generation it
    names, so of two changes prepared against one generation the later one is refused. */
module GenerationRaces {
  import opened Admission
  import opened AdmissionFacts
  import opened AdmissionRules
  import opened Basics
  import opened ControlPlane
  import opened Domain
  import opened Store

  /** The step is admitted anew for the resource and names this generation of it. */
  ghost predicate AdmitsNaming(s: Records, c: Catalog, step: Step, id: ResourceID, generation: nat) {
    && TransportAccepts(step)
    && match step
       case DoExisting(q) => q.id == id && q.expectedGeneration == generation && AdmittedAnew(AdmitExisting(s, c, q))
       case DoRetry(q) =>
         && AdmittedAnew(AdmitRetry(s, c, q)) && q.source in s.operations
         && s.operations[q.source].resourceID == id && q.expectedGeneration == generation
       case _ => false
  }

  lemma NamedIsStored(s: Records, c: Catalog, step: Step, id: ResourceID, generation: nat)
    requires Invariant(s, c) && AdmitsNaming(s, c, step, id, generation)
    ensures id in s.resources && s.resources[id].resource.generation == generation
  {
    hide Invariant, AdmitExisting, AdmitRetry, ReferencesAcceptable, Recoverable, TransportAccepts, KeyFree, Blank;
    match step
    case DoExisting(q) =>
      if q.change.DeleteIt? {
        DeleteAdmittedExactly(s, c, q);
      } else {
        UpdateAdmittedExactly(s, c, q);
      }
    case DoRetry(q) => RetryAdmittedExactly(s, c, q);
    case _ =>
  }

  lemma {:induction false} PlaySplits(s: Records, c: Catalog, first: seq<Step>, rest: seq<Step>)
    ensures Play(s, c, first + rest) == Play(Play(s, c, first), c, rest)
    decreases |first|
  {
    hide Next;
    if first == [] {
      assert first + rest == rest;
    } else {
      assert (first + rest)[0] == first[0] && (first + rest)[1..] == first[1..] + rest;
      PlaySplits(Next(s, c, first[0]), c, first[1..], rest);
    }
  }

  /** The records before the step at a position of the run. */
  ghost function Before(c: Catalog, steps: seq<Step>, i: nat): Records
    requires i <= |steps|
  {
    Play(EMPTY, c, steps[..i])
  }

  lemma BeforeLater(c: Catalog, steps: seq<Step>, i: nat, j: nat)
    requires i < j <= |steps|
    ensures Before(c, steps, j) == Play(Next(Before(c, steps, i), c, steps[i]), c, steps[i + 1..j])
  {
    hide Next;
    assert steps[..j] == steps[..i] + steps[i..j];
    PlaySplits(EMPTY, c, steps[..i], steps[i..j]);
    assert steps[i..j][0] == steps[i] && steps[i..j][1..] == steps[i + 1..j];
  }

  lemma BeforeIsSteady(c: Catalog, steps: seq<Step>, i: nat)
    requires i <= |steps|
    ensures Steady(Before(c, steps, i), c) && Invariant(Before(c, steps, i), c)
  {
    hide Play, Invariant, Steady;
    EmptyIsSteady(c);
    EveryRunKeepsInvariant(EMPTY, c, steps[..i]);
    SteadyParts(Before(c, steps, i), c);
  }

  /** Once an update that named a generation is admitted, no later update, delete or retry
      that still names that generation, or an older one, is admitted anew: of two updates
      prepared against one generation, at most one goes through. */
  lemma LaterNamesLater(c: Catalog, steps: seq<Step>, i: nat, j: nat, id: ResourceID, first: nat, second: nat)
    requires i < j < |steps|
    requires AdmitsNaming(Before(c, steps, i), c, steps[i], id, first) && steps[i].DoExisting? && steps[i].existing.change.UpdateTo?
    requires AdmitsNaming(Before(c, steps, j), c, steps[j], id, second)
    ensures first < second
  {
    hide Play, Next, Invariant, Steady, AdmitsNaming, AdmitsUpdate, Before, ActiveFor, UpdatesOf;
    var s, n := Before(c, steps, i), Next(Before(c, steps, i), c, steps[i]);
    BeforeIsSteady(c, steps, i);
    BeforeIsSteady(c, steps, j);
    NamedIsStored(s, c, steps[i], id, first);
    NamedIsStored(Before(c, steps, j), c, steps[j], id, second);
    UpdateIsCounted(s, c, steps[i], id, first);
    StepCounts(s, c, steps[i], id);
    StepKeepsSteady(s, c, steps[i]);
    BeforeLater(c, steps, i, j);
    RunCounts(n, c, steps[i + 1..j], id);
    GenerationCountsUpdates(s, c, id);
    GenerationCountsUpdates(Before(c, steps, j), c, id);
  }

  lemma UpdateIsCounted(s: Records, c: Catalog, step: Step, id: ResourceID, generation: nat)
    requires AdmitsNaming(s, c, step, id, generation) && step.DoExisting? && step.existing.change.UpdateTo?
    ensures AdmitsUpdate(s, c, step, id)
  {
    hide AdmitExisting;
  }
}
