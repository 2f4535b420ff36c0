/** The dependency gate: how one target is classified, how the classes of all targets
    combine, and what READY means in terms of the target's history. */
module Dependencies {
  import opened Basics
  import opened Domain
  import opened Lifecycle
  import opened LifecycleFacts
  import opened LifecycleRuns
  import opened Ordering
  import opened Outputs
  import opened References
  import opened StatusStory
  import opened Store

  datatype DependencyClass = DependencyReady | DependencyWaiting | DependencyTerminal | DependencyBroken

  // -------------------------------------------------------------- one target

  /** A true Reconciled condition for exactly this generation. */
  predicate ReconciledFor(cs: seq<Condition>, generation: nat) {
    exists i :: 0 <= i < |cs| && cs[i].kind == CondReconciled && cs[i].status.CTrue? && cs[i].observedGeneration == generation
  }

  method FindReconciled(cs: seq<Condition>, generation: nat) returns (reconciled: bool)
    ensures reconciled <==> ReconciledFor(cs, generation)
  {
    for i := 0 to |cs|
      invariant forall j :: 0 <= j < i ==> !(cs[j].kind == CondReconciled && cs[j].status.CTrue? && cs[j].observedGeneration == generation)
    {
      if cs[i].kind == CondReconciled && cs[i].status.CTrue? && cs[i].observedGeneration == generation {
        return true;
      }
    }
    return false;
  }

  predicate OutputsPublishedFor(s: Records, id: ResourceID, generation: nat) {
    id in s.outputs && s.outputs[id].snapshot.observedGeneration == generation
  }

  ghost function Classify(s: Records, c: Catalog, id: ResourceID): DependencyClass
    requires id in s.resources
  {
    var rec := s.resources[id];
    var active := ActiveFor(s, id).Some?;
    match rec.status.state
    case RsDeleting | RsDeleted | RsInvalid(_) => DependencyBroken
    case RsPending | RsUnknown => DependencyWaiting
    case RsFailed => if active then DependencyWaiting else DependencyTerminal
    case RsReady =>
      if !ReconciledFor(rec.status.conditions, rec.resource.generation) || active then DependencyWaiting
      else if RequiresPublishedOutputs(c, rec.resource.typeRef) && !OutputsPublishedFor(s, id, rec.resource.generation) then DependencyWaiting
      else DependencyReady
  }

  lemma {:induction false} ByKindFindsFirst(cs: seq<Condition>, k: ConditionType, i: nat)
    requires i < |cs| && cs[i].kind == k && UniqueKinds(cs)
    ensures k in ByKind(cs) && ByKind(cs)[k] == cs[i]
  {
    if i > 0 {
      assert UniqueKinds(cs[1..]);
      ByKindFindsFirst(cs[1..], k, i - 1);
    }
  }

  lemma {:induction false} ByKindIsMember(cs: seq<Condition>, k: ConditionType)
    requires k in ByKind(cs)
    ensures exists i :: 0 <= i < |cs| && cs[i] == ByKind(cs)[k] && cs[i].kind == k
  {
    if cs[0].kind != k {
      ByKindIsMember(cs[1..], k);
      var i :| 0 <= i < |cs[1..]| && cs[1..][i] == ByKind(cs[1..])[k] && cs[1..][i].kind == k;
      assert cs[i + 1] == ByKind(cs)[k];
    }
  }

  lemma ReconciledIsHeld(cs: seq<Condition>, generation: nat)
    requires UniqueKinds(cs)
    ensures ReconciledFor(cs, generation) <==>
              Holds(cs, CondReconciled) && FindCondition(cs, CondReconciled).value.observedGeneration == generation
  {
    hide ByKind;
    if ReconciledFor(cs, generation) {
      var i :| 0 <= i < |cs| && cs[i].kind == CondReconciled && cs[i].status.CTrue? && cs[i].observedGeneration == generation;
      ByKindFindsFirst(cs, CondReconciled, i);
    }
    if Holds(cs, CondReconciled) {
      ByKindIsMember(cs, CondReconciled);
    }
  }

  /** A target is READY exactly when it is in state Ready, its latest operation is a
      succeeded create or update, and no drift was seen since. Its current generation
      then has everything the type requires published. */
  lemma ReadyMeansConverged(s: Records, c: Catalog, id: ResourceID)
    requires Invariant(s, c) && id in s.resources
    ensures LatestFor(s, id).Some?
    ensures var rec := s.resources[id];
            var o := LatestFor(s, id).value;
            Classify(s, c, id).DependencyReady? <==>
              rec.status.state.RsReady? && o.state.OpSucceeded? && !o.capability.Delete? && id !in s.driftSeen
    ensures Classify(s, c, id).DependencyReady? ==>
              var rec := s.resources[id];
              var o := LatestFor(s, id).value;
              && ActiveFor(s, id).None?
              && o.targetGeneration == rec.resource.generation
              && (RequiresPublishedOutputs(c, rec.resource.typeRef) ==>
                    && id in s.outputs && s.outputs[id].snapshot.observedGeneration == rec.resource.generation
                    && Meets(c[rec.resource.typeRef].outputs.value, s.outputs[id].snapshot.values))
  {
    hide ByKind, ReconciledFor, ActiveFor, OperationOk, Links, Bound, UniqueKinds, ConditionsFit;
    assert ResourceOk(s, c, id);
    ActiveIsLatest(s, c, id);
    LatestBelongs(s, c, id);
    var rec := s.resources[id];
    KindsAreUnique(rec, LatestFor(s, id).value);
    ReconciledIsHeld(rec.status.conditions, rec.resource.generation);
  }

  /** The latest operation of the resource is a delete that goes on or has succeeded. */
  predicate GoingOrGone(o: Operation) {
    o.capability.Delete? && o.state in {OpPending, OpRunning, OpSucceeded}
  }

  /** The other classes, in terms of state and history alone: BROKEN is a target that is
      being deleted or was, TERMINAL one in state Failed with nothing in progress, which a
      failed create always leaves and an update never; every target that is none of
      these and not READY is WAITING. */
  lemma ClassesInHistory(s: Records, c: Catalog, id: ResourceID)
    requires Invariant(s, c) && id in s.resources
    ensures LatestFor(s, id).Some?
    ensures var state := s.resources[id].status.state;
            var o := LatestFor(s, id).value;
            && (Classify(s, c, id).DependencyBroken? <==> GoingOrGone(o))
            && (Classify(s, c, id).DependencyBroken? <==> state == RsDeleting || state == RsDeleted)
            && (Classify(s, c, id).DependencyTerminal? <==> state == RsFailed && ActiveFor(s, id).None?)
            && (Classify(s, c, id).DependencyTerminal? ==> o.state == OpFailed && o.capability in {Create, Delete})
            && (o.state == OpFailed && o.capability == Create ==> Classify(s, c, id).DependencyTerminal?)
            && (Classify(s, c, id).DependencyWaiting? <==>
                  && !GoingOrGone(o)
                  && !(state == RsFailed && ActiveFor(s, id).None?)
                  && !(state == RsReady && o.state == OpSucceeded && o.capability != Delete && id !in s.driftSeen))
  {
    hide ByKind, ReconciledFor, ActiveFor, OperationOk, Links, Bound, UniqueKinds, ConditionsFit, Classify, Books, Coherent, Tells, ResourceOk;
    BooksResource(s, c, id) by { assert Books(s, c); }
    ActiveIsLatest(s, c, id);
    LatestBelongs(s, c, id);
    ReadyMeansConverged(s, c, id);
    var rec, o := s.resources[id], LatestFor(s, id).value;
    HistoryOfState(s, c, id, o);
    ClassByState(s, c, id);
  }

  lemma HistoryOfState(s: Records, c: Catalog, id: ResourceID, o: Operation)
    requires ResourceOk(s, c, id) && LatestFor(s, id) == Some(o)
    ensures var state := s.resources[id].status.state;
            && (state == RsDeleting || state == RsDeleted <==> GoingOrGone(o))
            && (state == RsFailed ==> o.state == OpFailed && o.capability in {Create, Delete})
            && (o.state == OpFailed && o.capability == Create ==> state == RsFailed)
            && !state.RsInvalid?
  {
    hide ByKind, UniqueKinds, ConditionsFit, FailureTold, ProgressTold, ReconciledTold, FindCondition;
  }

  lemma ClassByState(s: Records, c: Catalog, id: ResourceID)
    requires id in s.resources && !s.resources[id].status.state.RsInvalid?
    ensures var state := s.resources[id].status.state;
            && (Classify(s, c, id).DependencyBroken? <==> state == RsDeleting || state == RsDeleted)
            && (Classify(s, c, id).DependencyTerminal? <==> state == RsFailed && ActiveFor(s, id).None?)
  {
    hide ReconciledFor, ActiveFor, RequiresPublishedOutputs, OutputsPublishedFor;
  }

  lemma KindsAreUnique(rec: Record, o: Operation)
    requires Coherent(World(rec.resource, rec.status, Some(o)))
    ensures UniqueKinds(rec.status.conditions)
    ensures Holds(rec.status.conditions, CondReconciled) ==> o.state.OpSucceeded?
  {
  }

  // -------------------------------------------------------------- all targets

  datatype Classified = Classified(id: ResourceID, kind: DependencyClass)

  datatype Evaluation = Evaluation(kind: DependencyClass, blocking: seq<ResourceID>)

  /** The targets that are not ready, in order. */
  function NotReady(ts: seq<Classified>): seq<ResourceID> {
    if ts == [] then []
    else NotReady(ts[..|ts| - 1]) + (if ts[|ts| - 1].kind.DependencyReady? then [] else [ts[|ts| - 1].id])
  }

  /** One more class: a later WAIT replaces whatever came before it. */
  function Join(sofar: DependencyClass, next: DependencyClass): DependencyClass {
    match next
    case DependencyReady => sofar
    case DependencyWaiting => DependencyWaiting
    case DependencyTerminal => if sofar.DependencyBroken? then sofar else DependencyTerminal
    case DependencyBroken => DependencyBroken
  }

  function JoinAll(ts: seq<Classified>): DependencyClass {
    if ts == [] then DependencyReady else Join(JoinAll(ts[..|ts| - 1]), ts[|ts| - 1].kind)
  }

  method EvaluateTargets(ts: seq<Classified>) returns (e: Evaluation)
    ensures e == Evaluation(JoinAll(ts), NotReady(ts))
  {
    e := Evaluation(DependencyReady, []);
    for i := 0 to |ts|
      invariant e == Evaluation(JoinAll(ts[..i]), NotReady(ts[..i]))
    {
      assert ts[..i + 1][..i] == ts[..i];
      match ts[i].kind
      case DependencyReady =>
      case DependencyWaiting => e := Evaluation(DependencyWaiting, e.blocking + [ts[i].id]);
      case DependencyTerminal =>
        if !e.kind.DependencyBroken? {
          e := e.(kind := DependencyTerminal);
        }
        e := e.(blocking := e.blocking + [ts[i].id]);
      case DependencyBroken => e := Evaluation(DependencyBroken, e.blocking + [ts[i].id]);
    }
    assert ts[..|ts|] == ts;
  }

  ghost predicate AllReady(ts: seq<Classified>) {
    forall i :: 0 <= i < |ts| ==> ts[i].kind.DependencyReady?
  }

  predicate Has(ts: seq<Classified>, kind: DependencyClass) {
    exists i :: 0 <= i < |ts| && ts[i].kind == kind
  }

  /** The targets after the last one that waits. */
  function AfterLastWait(ts: seq<Classified>): (r: seq<Classified>)
    ensures |r| <= |ts| && r == ts[|ts| - |r|..]
    ensures !Has(r, DependencyWaiting)
    ensures |r| < |ts| ==> ts[|ts| - |r| - 1].kind.DependencyWaiting?
  {
    if ts == [] || ts[|ts| - 1].kind.DependencyWaiting? then []
    else AfterLastWait(ts[..|ts| - 1]) + [ts[|ts| - 1]]
  }

  /** READY is the answer exactly when every target is ready, exactly when nothing
      blocks; what blocks is every target that is not ready. */
  lemma {:induction false} ReadyExactlyWhenAllAre(ts: seq<Classified>)
    ensures JoinAll(ts).DependencyReady? <==> AllReady(ts)
    ensures JoinAll(ts).DependencyReady? <==> NotReady(ts) == []
    ensures forall id :: id in NotReady(ts) <==> exists i :: 0 <= i < |ts| && ts[i].id == id && !ts[i].kind.DependencyReady?
  {
    if ts != [] {
      var init, last := ts[..|ts| - 1], ts[|ts| - 1];
      ReadyExactlyWhenAllAre(init);
      assert forall i :: 0 <= i < |init| ==> init[i] == ts[i];
      assert last == ts[|ts| - 1];
    }
  }

  /** Otherwise the targets after the last waiting one decide: a broken one over a failed
      one, and without either the wait stands, whatever came before it. */
  lemma {:induction false} LastWaitDecides(ts: seq<Classified>)
    ensures JoinAll(ts) ==
              var rest := AfterLastWait(ts);
              if Has(rest, DependencyBroken) then DependencyBroken
              else if Has(rest, DependencyTerminal) then DependencyTerminal
              else if |rest| < |ts| then DependencyWaiting
              else DependencyReady
  {
    if ts != [] {
      var init, last := ts[..|ts| - 1], ts[|ts| - 1];
      LastWaitDecides(init);
      if !last.kind.DependencyWaiting? {
        HasAppended(AfterLastWait(init), last);
      }
    }
  }

  lemma HasAppended(ts: seq<Classified>, t: Classified)
    ensures forall k :: Has(ts + [t], k) <==> Has(ts, k) || t.kind == k
  {
    forall k
      ensures Has(ts + [t], k) <==> Has(ts, k) || t.kind == k
    {
      if Has(ts, k) {
        var i :| 0 <= i < |ts| && ts[i].kind == k;
        assert (ts + [t])[i].kind == k;
      }
      if t.kind == k {
        assert (ts + [t])[|ts|].kind == k;
      }
    }
  }

  function Gravity(kind: DependencyClass): nat {
    match kind
    case DependencyReady => 0
    case DependencyWaiting => 1
    case DependencyTerminal => 2
    case DependencyBroken => 3
  }

  /** The gravest class among the targets. */
  function Gravest(ts: seq<Classified>): (kind: DependencyClass)
    ensures kind.DependencyReady? || Has(ts, kind)
    ensures forall i :: 0 <= i < |ts| ==> Gravity(ts[i].kind) <= Gravity(kind)
  {
    if Has(ts, DependencyBroken) then DependencyBroken
    else if Has(ts, DependencyTerminal) then DependencyTerminal
    else if Has(ts, DependencyWaiting) then DependencyWaiting
    else DependencyReady
  }

  predicate WaitFollows(ts: seq<Classified>, i: nat) {
    exists j :: i < j < |ts| && ts[j].kind.DependencyWaiting?
  }

  /** Some target of the class has no waiting target behind it. */
  predicate Uncovered(ts: seq<Classified>, kind: DependencyClass) {
    exists i :: 0 <= i < |ts| && ts[i].kind == kind && !WaitFollows(ts, i)
  }

  lemma FollowersAppended(ts: seq<Classified>, t: Classified, i: nat)
    requires i < |ts|
    ensures WaitFollows(ts + [t], i) <==> WaitFollows(ts, i) || t.kind.DependencyWaiting?
  {
    var more := ts + [t];
    if WaitFollows(ts, i) {
      var j :| i < j < |ts| && ts[j].kind.DependencyWaiting?;
      assert more[j].kind.DependencyWaiting?;
    }
    if t.kind.DependencyWaiting? {
      assert more[|ts|].kind.DependencyWaiting?;
    }
  }

  lemma UncoveredAppended(ts: seq<Classified>, t: Classified, kind: DependencyClass)
    requires !kind.DependencyWaiting?
    ensures Uncovered(ts + [t], kind) <==> !t.kind.DependencyWaiting? && (Uncovered(ts, kind) || t.kind == kind)
  {
    hide WaitFollows;
    var more := ts + [t];
    forall i | 0 <= i < |ts|
      ensures WaitFollows(more, i) <==> WaitFollows(ts, i) || t.kind.DependencyWaiting?
    {
      FollowersAppended(ts, t, i);
    }
    if !t.kind.DependencyWaiting? {
      LastHasNoFollower(more);
      assert more[|ts|] == t;
      if Uncovered(ts, kind) {
        var i :| 0 <= i < |ts| && ts[i].kind == kind && !WaitFollows(ts, i);
        assert more[i].kind == kind && !WaitFollows(more, i);
      }
    }
  }

  lemma LastHasNoFollower(ts: seq<Classified>)
    requires ts != []
    ensures !WaitFollows(ts, |ts| - 1)
  {
  }

  lemma {:induction false} UncoveredIsAfterLastWait(ts: seq<Classified>, kind: DependencyClass)
    requires !kind.DependencyWaiting?
    ensures Uncovered(ts, kind) <==> Has(AfterLastWait(ts), kind)
  {
    hide Uncovered;
    if ts == [] {
      assert !Uncovered([], kind) by { NothingUncovered(kind); }
    } else {
      var init, last := ts[..|ts| - 1], ts[|ts| - 1];
      assert ts == init + [last];
      UncoveredAppended(init, last, kind);
      UncoveredIsAfterLastWait(init, kind);
      HasAppended(AfterLastWait(init), last);
    }
  }

  lemma NothingUncovered(kind: DependencyClass)
    ensures !Uncovered([], kind)
  {
  }

  lemma {:induction false} RestIsPart(ts: seq<Classified>)
    ensures forall k :: Has(AfterLastWait(ts), k) ==> Has(ts, k)
    ensures |AfterLastWait(ts)| < |ts| <==> Has(ts, DependencyWaiting)
  {
    hide Has;
    if ts == [] {
      assert !Has([], DependencyWaiting) by { NothingHad(); }
    } else {
      var init, last := ts[..|ts| - 1], ts[|ts| - 1];
      assert ts == init + [last];
      RestIsPart(init);
      HasAppended(init, last);
      HasAppended(AfterLastWait(init), last);
      NothingHad();
    }
  }

  lemma NothingHad()
    ensures forall k :: !Has([], k)
  {
  }

  /** The gravest class is the answer exactly when it is no failure, or a failed or broken
      target of that class has no waiting target behind it. */
  lemma GravestWinsExactly(ts: seq<Classified>)
    ensures JoinAll(ts) == Gravest(ts) <==>
              (Gravest(ts).DependencyBroken? || Gravest(ts).DependencyTerminal? ==> Uncovered(ts, Gravest(ts)))
  {
    hide JoinAll, AfterLastWait, Uncovered, Has;
    LastWaitDecides(ts);
    UncoveredIsAfterLastWait(ts, DependencyBroken);
    UncoveredIsAfterLastWait(ts, DependencyTerminal);
    RestIsPart(ts);
  }

  /** Every answer, decided by the targets no waiting one stands behind: a broken one of
      these breaks it, otherwise a failed one fails it; without either it waits for any
      target that is not ready. */
  lemma AnswerExactly(ts: seq<Classified>)
    ensures JoinAll(ts).DependencyBroken? <==> Uncovered(ts, DependencyBroken)
    ensures JoinAll(ts).DependencyTerminal? <==> Uncovered(ts, DependencyTerminal) && !Uncovered(ts, DependencyBroken)
    ensures JoinAll(ts).DependencyWaiting? <==>
              !AllReady(ts) && !Uncovered(ts, DependencyTerminal) && !Uncovered(ts, DependencyBroken)
  {
    hide JoinAll, AfterLastWait, Uncovered, Has, AllReady, NotReady;
    LastWaitDecides(ts);
    UncoveredIsAfterLastWait(ts, DependencyBroken);
    UncoveredIsAfterLastWait(ts, DependencyTerminal);
    RestIsPart(ts);
    ReadyExactlyWhenAllAre(ts);
  }

  /** A waiting target behind a broken one hides it; in front, it does not. */
  lemma WaitHidesBroken(a: ResourceID, b: ResourceID)
    ensures JoinAll([Classified(a, DependencyBroken), Classified(b, DependencyWaiting)]) == DependencyWaiting
    ensures Gravest([Classified(a, DependencyBroken), Classified(b, DependencyWaiting)]) == DependencyBroken
    ensures JoinAll([Classified(a, DependencyWaiting), Classified(b, DependencyBroken)]) == DependencyBroken
  {
    var broken, waiting := Classified(a, DependencyBroken), Classified(a, DependencyWaiting);
    assert [broken, Classified(b, DependencyWaiting)][..1] == [broken];
    assert [waiting, Classified(b, DependencyBroken)][..1] == [waiting];
    assert [broken][..0] == [] && [waiting][..0] == [];
    assert [broken, Classified(b, DependencyWaiting)][0].kind == DependencyBroken;
  }

  // -------------------------------------------------------------------- the gate

  datatype GateAnswer = NotGated | Gated(evaluation: Evaluation) | GateUnknownType | GateTargetMissing | GateCorrupt

  predicate RowsCurrent(edges: seq<Edge>, generation: nat) {
    forall i :: 0 <= i < |edges| ==> edges[i].generation == generation
  }

  ghost function ClassifiedTargets(s: Records, c: Catalog, targets: seq<ResourceID>): seq<Classified>
    requires forall i :: 0 <= i < |targets| ==> targets[i] in s.resources
  {
    seq(|targets|, i requires 0 <= i < |targets| => Classified(targets[i], Classify(s, c, targets[i])))
  }

  ghost function EvaluateDependencies(s: Records, c: Catalog, id: ResourceID): GateAnswer
    requires id in s.resources
  {
    var rec := s.resources[id];
    var edges := EdgesAt(s.desired, id);
    var targets := DistinctTargets(edges);
    if rec.resource.typeRef !in c then GateUnknownType
    else if c[rec.resource.typeRef].references.None? then NotGated
    else if !RowsCurrent(edges, rec.resource.generation) then GateCorrupt
    else if edges == [] then NotGated
    else if exists i :: 0 <= i < |targets| && targets[i] !in s.resources then GateTargetMissing
    else
      var ts := ClassifiedTargets(s, c, targets);
      Gated(Evaluation(JoinAll(ts), NotReady(ts)))
  }

  /** In every reachable state the gate answers: no stale row, no missing target. It lets
      an operation pass exactly when all its desired targets have converged. */
  lemma GateAnswers(s: Records, c: Catalog, id: ResourceID)
    requires Invariant(s, c) && id in s.resources
    ensures EvaluateDependencies(s, c, id).NotGated? || EvaluateDependencies(s, c, id).Gated?
    ensures EvaluateDependencies(s, c, id).NotGated? <==> id !in s.desired
    ensures EvaluateDependencies(s, c, id).Gated? ==>
              var e := EvaluateDependencies(s, c, id).evaluation;
              && (e.kind.DependencyReady? <==> e.blocking == [])
              && (e.kind.DependencyReady? <==>
                    forall t :: Targets(s.desired[id], t) ==> t in s.resources && Classify(s, c, t).DependencyReady?)
  {
    hide DistinctTargets, Classify, Books, Bound, NotReady, JoinAll, CellOk;
    assert ResourceOk(s, c, id) by { BooksResource(s, c, id); }
    assert s.resources[id].resource.typeRef in c by { CellKnowsType(s, c, id); }
    var edges := EdgesAt(s.desired, id);
    var targets := DistinctTargets(edges);
    TargetsAreDistinctTargets(edges);
    assert Links(s, c);
    if id in s.desired {
      assert RowsOk(s, c, id, s.desired[id], s.resources[id].resource.generation);
      forall i | 0 <= i < |targets|
        ensures targets[i] in s.resources
      {
        assert Targets(edges, targets[i]);
      }
      ReadyExactlyWhenAllAre(ClassifiedTargets(s, c, targets));
      GateReadiness(s, c, edges, targets);
    }
  }

  lemma BooksResource(s: Records, c: Catalog, id: ResourceID)
    requires Books(s, c) && id in s.resources
    ensures ResourceOk(s, c, id)
  {
  }

  lemma CellKnowsType(s: Records, c: Catalog, id: ResourceID)
    requires ResourceOk(s, c, id)
    ensures s.resources[id].resource.typeRef in c
  {
  }

  lemma TargetsAreDistinctTargets(edges: seq<Edge>)
    ensures forall t :: t in DistinctTargets(edges) <==> Targets(edges, t)
  {
    forall t
      ensures t in DistinctTargets(edges) <==> Targets(edges, t)
    {
      if Targets(edges, t) {
        var i :| 0 <= i < |edges| && edges[i].target == t;
        assert edges[i] in edges;
      }
    }
  }

  lemma GateReadiness(s: Records, c: Catalog, edges: seq<Edge>, targets: seq<ResourceID>)
    requires forall t :: t in targets <==> Targets(edges, t)
    requires forall i :: 0 <= i < |targets| ==> targets[i] in s.resources
    ensures AllReady(ClassifiedTargets(s, c, targets)) <==>
              forall t :: Targets(edges, t) ==> t in s.resources && Classify(s, c, t).DependencyReady?
  {
    hide Classify, Targets;
    var ts := ClassifiedTargets(s, c, targets);
    if AllReady(ts) {
      forall t | Targets(edges, t)
        ensures t in s.resources && Classify(s, c, t).DependencyReady?
      {
        var i :| 0 <= i < |targets| && targets[i] == t;
        assert ts[i].kind.DependencyReady?;
      }
    }
  }
}
