/** Reference rows through every kind of write: whose targets stay sound, and why the
    desired graph stays acyclic. */
module Rows {
  import opened Basics
  import opened Domain
  import opened Graph
  import opened Ordering
  import opened References
  import opened Store

  /** Resources only move on; none disappears. */
  predicate Evolves(s: Records, n: Records) {
    forall id :: id in s.resources ==> id in n.resources && Continues(s.resources[id], n.resources[id])
  }

  lemma RowsPersist(s: Records, n: Records, c: Catalog, id: ResourceID, edges: seq<Edge>, g: nat)
    requires RowsOk(s, c, id, edges, g) && Evolves(s, n)
    requires !n.resources[id].status.state.RsDeleted?
    ensures RowsOk(n, c, id, edges, g)
  {
  }

  /** Every table entry but `id`'s is carried over, and no other source was deleted. */
  predicate OthersKept(s: Records, n: Records, id: ResourceID) {
    && (forall other :: other != id && other in n.desired ==> other in s.desired && n.desired[other] == s.desired[other])
    && (forall other :: other != id && other in n.applied ==> other in s.applied && n.applied[other] == s.applied[other])
    && (forall other :: other != id && other in s.resources ==> other in n.resources && n.resources[other] == s.resources[other])
  }

  /** What one write must show for its own source. */
  ghost predicate OwnRowsOk(n: Records, c: Catalog, id: ResourceID) {
    && (id in n.desired ==> id in n.resources && RowsOk(n, c, id, n.desired[id], n.resources[id].resource.generation))
    && (id in n.applied ==> exists g :: RowsOk(n, c, id, n.applied[id], g))
  }

  lemma LinksAfterWrite(s: Records, n: Records, c: Catalog, id: ResourceID)
    requires Links(s, c) && Evolves(s, n) && OthersKept(s, n, id) && OwnRowsOk(n, c, id)
    requires Acyclic(DesiredGraph(n.desired))
    ensures Links(n, c)
  {
    hide Continues, Acyclic, DesiredGraph;
    forall other | other in n.desired
      ensures other in n.resources && RowsOk(n, c, other, n.desired[other], n.resources[other].resource.generation)
    {
      if other != id {
        RowsPersist(s, n, c, other, s.desired[other], s.resources[other].resource.generation);
      }
    }
    forall other | other in n.applied
      ensures exists g :: RowsOk(n, c, other, n.applied[other], g)
    {
      if other != id {
        var g :| RowsOk(s, c, other, s.applied[other], g);
        RowsPersist(s, n, c, other, s.applied[other], g);
      }
    }
  }

  // ---------------------------------------------------------------- the graph

  lemma OutgoingDesired(t: EdgeTable, n: Node)
    ensures Outgoing(DesiredGraph(t), n) == DistinctTargets(EdgesAt(t, n))
    ensures forall x :: x in Outgoing(DesiredGraph(t), n) <==> Targets(EdgesAt(t, n), x)
  {
    assert DistinctTargets([]) == [];
    var edges := EdgesAt(t, n);
    forall x
      ensures (exists e :: e in edges && e.target == x) <==> Targets(edges, x)
    {
      if Targets(edges, x) {
        var i :| 0 <= i < |edges| && edges[i].target == x;
        assert edges[i] in edges;
      }
    }
  }

  lemma StampedTargets(edges: seq<Edge>, g: nat, x: ResourceID)
    ensures Targets(Stamped(edges, g), x) <==> Targets(edges, x)
  {
    if Targets(edges, x) {
      var i :| 0 <= i < |edges| && edges[i].target == x;
      assert Stamped(edges, g)[i].target == x;
    }
  }

  /** Rewriting one source's rows keeps the graph acyclic once the search has proved the
      added targets safe; the preserved rows are not looked at again. */
  lemma RewriteStaysAcyclic(t: EdgeTable, id: ResourceID, g: nat, edges: seq<Edge>)
    requires Acyclic(DesiredGraph(t))
    requires var added := Without(edges, EdgesAt(t, id));
             added == [] || CycleVerdict(DesiredGraph(t), id, DistinctTargets(added)).ProvedSafe?
    ensures Acyclic(DesiredGraph(PutEdges(t, id, g, edges)))
  {
    hide CycleVerdict, Acyclic, DesiredGraph, DistinctTargets;
    var now := PutEdges(t, id, g, edges);
    var added := Without(edges, EdgesAt(t, id));
    VerdictMeaning(DesiredGraph(t), id, DistinctTargets(added));
    forall n | n != id
      ensures forall x :: x in Outgoing(DesiredGraph(now), n) ==> x in Outgoing(DesiredGraph(t), n)
    {
      OutgoingDesired(t, n);
      OutgoingDesired(now, n);
      assert EdgesAt(now, n) == EdgesAt(t, n);
    }
    OutgoingDesired(t, id);
    OutgoingDesired(now, id);
    forall x | x in Outgoing(DesiredGraph(now), id) && x !in Outgoing(DesiredGraph(t), id)
      ensures !Reaches(DesiredGraph(t), x, id)
    {
      NewTargetWasAdded(t, id, g, edges, x);
    }
    RewriteKeepsAcyclic(DesiredGraph(t), DesiredGraph(now), id);
  }

  lemma NewTargetWasAdded(t: EdgeTable, id: ResourceID, g: nat, edges: seq<Edge>, x: ResourceID)
    requires Targets(EdgesAt(PutEdges(t, id, g, edges), id), x) && !Targets(EdgesAt(t, id), x)
    ensures Without(edges, EdgesAt(t, id)) != []
    ensures x in DistinctTargets(Without(edges, EdgesAt(t, id)))
  {
    hide DistinctTargets;
    StampedTargets(edges, g, x);
    var i :| 0 <= i < |edges| && edges[i].target == x;
    assert edges[i] in edges && !HasPair(EdgesAt(t, id), edges[i]);
    assert edges[i] in Without(edges, EdgesAt(t, id));
  }

  lemma RemovalStaysAcyclic(t: EdgeTable, id: ResourceID)
    requires Acyclic(DesiredGraph(t))
    ensures Acyclic(DesiredGraph(t - {id}))
  {
    assert Without([], EdgesAt(t, id)) == [];
    RewriteStaysAcyclic(t, id, 0, []);
  }

  // --------------------------------------------------------- protected targets

  /** No row points at a resource that is being deleted or is gone. */
  predicate Protected(s: Records) {
    forall id :: id in s.resources && (s.resources[id].status.state.RsDeleting? || s.resources[id].status.state.RsDeleted?) ==>
      !HasInbound(s, id)
  }

  lemma SharedRowsInbound(s: Records, n: Records, target: ResourceID)
    requires n.desired == s.desired && n.applied == s.applied
    ensures HasInbound(n, target) <==> HasInbound(s, target)
  {
  }
}
