/** Directed graphs of resources, the bounded depth-first search that proves an edge
    safe, and what its three verdicts mean. */
module Graph {
  import opened Basics

  type Node = string

  /** Each node's distinct outgoing targets, in the order a search follows them. */
  type Digraph = map<Node, seq<Node>>

  const MAX_DEPTH := 32
  const MAX_NODES := 4096

  function Outgoing(g: Digraph, n: Node): seq<Node> {
    if n in g then g[n] else []
  }

  // -------------------------------------------------------------- reachability

  predicate IsWalk(g: Digraph, p: seq<Node>) {
    p != [] && forall i :: 0 <= i < |p| - 1 ==> p[i + 1] in Outgoing(g, p[i])
  }

  /** A walk follows stored targets from node to node. */
  lemma WalksFollowTargets(g: Digraph, p: seq<Node>)
    ensures IsWalk(g, p) <==> p != [] && forall i :: 0 <= i < |p| - 1 ==> p[i] in g && p[i + 1] in g[p[i]]
  {
    if p != [] && forall i :: 0 <= i < |p| - 1 ==> p[i] in g && p[i + 1] in g[p[i]] {
      forall i | 0 <= i < |p| - 1
        ensures p[i + 1] in Outgoing(g, p[i])
      {
        assert p[i] in g && p[i + 1] in g[p[i]];
      }
    }
    if IsWalk(g, p) {
      forall i | 0 <= i < |p| - 1
        ensures p[i] in g && p[i + 1] in g[p[i]]
      {
        assert p[i + 1] in Outgoing(g, p[i]);
      }
    }
  }

  predicate IsWalkBetween(g: Digraph, p: seq<Node>, a: Node, b: Node) {
    IsWalk(g, p) && p[0] == a && p[|p| - 1] == b
  }

  ghost predicate Reaches(g: Digraph, a: Node, b: Node) {
    exists p :: IsWalkBetween(g, p, a, b)
  }

  ghost predicate Acyclic(g: Digraph) {
    forall a, t :: t in Outgoing(g, a) ==> !Reaches(g, t, a)
  }

  lemma WalkFrom(g: Digraph, a: Node, t: Node, b: Node)
    requires t in Outgoing(g, a) && Reaches(g, t, b)
    ensures Reaches(g, a, b)
  {
    var p :| IsWalkBetween(g, p, t, b);
    assert IsWalkBetween(g, [a] + p, a, b);
  }

  /** A set closed under outgoing edges holds every walk that starts in it. */
  lemma {:induction false} ClosedSetHoldsWalks(g: Digraph, s: set<Node>, p: seq<Node>)
    requires IsWalk(g, p) && p[0] in s
    requires forall n, t :: n in s && t in Outgoing(g, n) ==> t in s
    ensures p[|p| - 1] in s
  {
    if |p| > 1 {
      assert p[1] in Outgoing(g, p[0]);
      ClosedSetHoldsWalks(g, s, p[1..]);
    }
  }

  // ------------------------------------------------------------- the search

  datatype Verdict = ProvedSafe | CycleFound | LimitReached

  datatype Search = Search(visited: set<Node>, budget: int)

  const START := Search({}, MAX_NODES)

  function Visit(g: Digraph, source: Node, node: Node, depth: nat, s: Search): (Verdict, Search)
    requires 1 <= depth <= MAX_DEPTH
    decreases MAX_DEPTH - depth, 0, 0
  {
    if node == source then (CycleFound, s)
    else if node in s.visited then (ProvedSafe, s)
    else if s.budget <= 0 then (LimitReached, s)
    else
      var entered := Search(s.visited + {node}, s.budget - 1);
      if Outgoing(g, node) == [] then (ProvedSafe, entered)
      else if depth + 1 > MAX_DEPTH then (LimitReached, entered)
      else VisitAll(g, source, Outgoing(g, node), depth + 1, entered)
  }

  function VisitAll(g: Digraph, source: Node, nodes: seq<Node>, depth: nat, s: Search): (Verdict, Search)
    requires 1 <= depth <= MAX_DEPTH
    decreases MAX_DEPTH - depth, 1, |nodes|
  {
    if nodes == [] then (ProvedSafe, s)
    else
      var (v, t) := Visit(g, source, nodes[0], depth, s);
      if v.ProvedSafe? then VisitAll(g, source, nodes[1..], depth, t) else (v, t)
  }

  function CycleVerdict(g: Digraph, source: Node, candidates: seq<Node>): Verdict {
    VisitAll(g, source, candidates, 1, START).0
  }

  // ------------------------------------------------------------------ the budget

  /** Every node entered is paid for, and no more than the budget allows. */
  predicate PaidFor(s: Search) {
    0 <= s.budget && |s.visited| + s.budget == 4096
  }

  lemma {:induction false} VisitPays(g: Digraph, source: Node, node: Node, depth: nat, s: Search)
    requires 1 <= depth <= MAX_DEPTH && PaidFor(s)
    ensures PaidFor(Visit(g, source, node, depth, s).1)
    decreases MAX_DEPTH - depth, 0, 0
  {
    if node != source && node !in s.visited && 0 < s.budget && Outgoing(g, node) != [] && depth + 1 <= MAX_DEPTH {
      VisitAllPays(g, source, Outgoing(g, node), depth + 1, Search(s.visited + {node}, s.budget - 1));
    }
  }

  lemma {:induction false} VisitAllPays(g: Digraph, source: Node, nodes: seq<Node>, depth: nat, s: Search)
    requires 1 <= depth <= MAX_DEPTH && PaidFor(s)
    ensures PaidFor(VisitAll(g, source, nodes, depth, s).1)
    decreases MAX_DEPTH - depth, 1, |nodes|
  {
    if nodes != [] {
      VisitPays(g, source, nodes[0], depth, s);
      var (v, t) := Visit(g, source, nodes[0], depth, s);
      if v.ProvedSafe? {
        VisitAllPays(g, source, nodes[1..], depth, t);
      }
    }
  }

  /** The search enters at most 4096 nodes, whatever the graph. */
  lemma SearchIsBounded(g: Digraph, source: Node, candidates: seq<Node>)
    ensures |VisitAll(g, source, candidates, 1, START).1.visited| <= 4096
  {
    VisitAllPays(g, source, candidates, 1, START);
  }

  // ----------------------------------------------------- safe means unreachable

  /** Everything visited and not still being expanded has all its targets visited. */
  ghost predicate Expanded(g: Digraph, s: Search, open: set<Node>) {
    forall n, t :: n in s.visited && n !in open && t in Outgoing(g, n) ==> t in s.visited
  }

  lemma {:induction false} VisitExpands(g: Digraph, source: Node, node: Node, depth: nat, s: Search, open: set<Node>)
    requires 1 <= depth <= MAX_DEPTH
    requires source !in s.visited && Expanded(g, s, open)
    requires Visit(g, source, node, depth, s).0.ProvedSafe?
    ensures var t := Visit(g, source, node, depth, s).1;
            source !in t.visited && s.visited + {node} <= t.visited && Expanded(g, t, open)
    decreases MAX_DEPTH - depth, 0, 0
  {
    if node !in s.visited {
      var entered := Search(s.visited + {node}, s.budget - 1);
      if Outgoing(g, node) != [] {
        VisitAllExpands(g, source, Outgoing(g, node), depth + 1, entered, open + {node});
      }
    }
  }

  lemma {:induction false} VisitAllExpands(g: Digraph, source: Node, nodes: seq<Node>, depth: nat, s: Search, open: set<Node>)
    requires 1 <= depth <= MAX_DEPTH
    requires source !in s.visited && Expanded(g, s, open)
    requires VisitAll(g, source, nodes, depth, s).0.ProvedSafe?
    ensures var t := VisitAll(g, source, nodes, depth, s).1;
            source !in t.visited && s.visited <= t.visited && Expanded(g, t, open) && forall n :: n in nodes ==> n in t.visited
    decreases MAX_DEPTH - depth, 1, |nodes|
  {
    if nodes != [] {
      VisitExpands(g, source, nodes[0], depth, s, open);
      VisitAllExpands(g, source, nodes[1..], depth, Visit(g, source, nodes[0], depth, s).1, open);
    }
  }

  // --------------------------------------------------- a cycle means reachable

  lemma {:induction false} VisitFindsWalk(g: Digraph, source: Node, node: Node, depth: nat, s: Search)
    requires 1 <= depth <= MAX_DEPTH && Visit(g, source, node, depth, s).0.CycleFound?
    ensures Reaches(g, node, source)
    decreases MAX_DEPTH - depth, 0, 0
  {
    if node == source {
      assert IsWalkBetween(g, [node], node, source);
    } else {
      var n := VisitAllFindsWalk(g, source, Outgoing(g, node), depth + 1, Search(s.visited + {node}, s.budget - 1));
      WalkFrom(g, node, n, source);
    }
  }

  lemma {:induction false} VisitAllFindsWalk(g: Digraph, source: Node, nodes: seq<Node>, depth: nat, s: Search) returns (n: Node)
    requires 1 <= depth <= MAX_DEPTH && VisitAll(g, source, nodes, depth, s).0.CycleFound?
    ensures n in nodes && Reaches(g, n, source)
    decreases MAX_DEPTH - depth, 1, |nodes|
  {
    var (v, t) := Visit(g, source, nodes[0], depth, s);
    if v.CycleFound? {
      VisitFindsWalk(g, source, nodes[0], depth, s);
      n := nodes[0];
    } else {
      n := VisitAllFindsWalk(g, source, nodes[1..], depth, t);
    }
  }

  // ------------------------------------------- a limit means the graph is large

  /** A walk from a candidate on which only the last node may be the source. */
  predicate ProbeWalk(g: Digraph, source: Node, candidates: seq<Node>, p: seq<Node>) {
    IsWalk(g, p) && p[0] in candidates && source !in p[..|p| - 1]
  }

  ghost predicate Probed(g: Digraph, source: Node, candidates: seq<Node>, n: Node) {
    n != source && exists p :: ProbeWalk(g, source, candidates, p) && p[|p| - 1] == n
  }

  ghost predicate TooDeep(g: Digraph, source: Node, candidates: seq<Node>) {
    exists p :: ProbeWalk(g, source, candidates, p) && |p| == 33
  }

  ghost predicate TooWide(g: Digraph, source: Node, candidates: seq<Node>) {
    exists s: set<Node> :: |s| > 4096 && forall n :: n in s ==> Probed(g, source, candidates, n)
  }

  ghost predicate Accounted(g: Digraph, source: Node, candidates: seq<Node>, s: Search) {
    s.budget == MAX_NODES - |s.visited| && forall n :: n in s.visited ==> Probed(g, source, candidates, n)
  }

  lemma ProbeExtends(g: Digraph, source: Node, candidates: seq<Node>, p: seq<Node>, n: Node)
    requires ProbeWalk(g, source, candidates, p) && p[|p| - 1] != source && n in Outgoing(g, p[|p| - 1])
    ensures ProbeWalk(g, source, candidates, p + [n])
  {
    var q := p + [n];
    assert q[..|q| - 1] == p[..|p| - 1] + [p[|p| - 1]];
  }

  /** Entering one more node keeps the account; having no budget for it is too wide. */
  lemma NodeAccounts(g: Digraph, source: Node, candidates: seq<Node>, p: seq<Node>, s: Search)
    requires ProbeWalk(g, source, candidates, p) && Accounted(g, source, candidates, s)
    requires p[|p| - 1] != source && p[|p| - 1] !in s.visited
    ensures if s.budget <= 0 then TooWide(g, source, candidates)
            else Accounted(g, source, candidates, Search(s.visited + {p[|p| - 1]}, s.budget - 1))
  {
    assert Probed(g, source, candidates, p[|p| - 1]);
    var many := s.visited + {p[|p| - 1]};
    assert |many| == |s.visited| + 1;
  }

  lemma {:induction false} VisitAccounts(g: Digraph, source: Node, candidates: seq<Node>, p: seq<Node>, s: Search)
    requires 1 <= |p| <= MAX_DEPTH && ProbeWalk(g, source, candidates, p) && Accounted(g, source, candidates, s)
    ensures var (v, t) := Visit(g, source, p[|p| - 1], |p|, s);
            && (v.ProvedSafe? ==> Accounted(g, source, candidates, t))
            && (v.LimitReached? ==> TooDeep(g, source, candidates) || TooWide(g, source, candidates))
    decreases MAX_DEPTH - |p|, 0, 0
  {
    var node := p[|p| - 1];
    if node != source && node !in s.visited {
      NodeAccounts(g, source, candidates, p, s);
      hide Accounted, TooWide, ProbeWalk;
      var nexts := Outgoing(g, node);
      if s.budget > 0 && nexts != [] {
        forall n | n in nexts
          ensures ProbeWalk(g, source, candidates, p + [n])
        {
          ProbeExtends(g, source, candidates, p, n);
        }
        if |p| == MAX_DEPTH {
          assert nexts[0] in nexts;
          assert |p + [nexts[0]]| == MAX_DEPTH + 1;
        } else {
          VisitAllAccounts(g, source, candidates, p, nexts, Search(s.visited + {node}, s.budget - 1));
        }
      }
    }
  }

  lemma {:induction false} VisitAllAccounts(g: Digraph, source: Node, candidates: seq<Node>, p: seq<Node>, nodes: seq<Node>, s: Search)
    requires |p| < MAX_DEPTH && Accounted(g, source, candidates, s)
    requires forall n :: n in nodes ==> ProbeWalk(g, source, candidates, p + [n])
    ensures var (v, t) := VisitAll(g, source, nodes, |p| + 1, s);
            && (v.ProvedSafe? ==> Accounted(g, source, candidates, t))
            && (v.LimitReached? ==> TooDeep(g, source, candidates) || TooWide(g, source, candidates))
    decreases MAX_DEPTH - |p| - 1, 1, |nodes|
  {
    if nodes != [] {
      assert nodes[0] in nodes;
      assert (p + [nodes[0]])[|p|] == nodes[0];
      VisitAccounts(g, source, candidates, p + [nodes[0]], s);
      var (v, t) := Visit(g, source, nodes[0], |p| + 1, s);
      if v.ProvedSafe? {
        VisitAllAccounts(g, source, candidates, p, nodes[1..], t);
      }
    }
  }

  /** The three verdicts: safe exactly describes unreachability, a cycle is real, and
      the limit is reported only for a walk of more than 32 nodes or more than 4096
      nodes to look at. */
  lemma VerdictMeaning(g: Digraph, source: Node, candidates: seq<Node>)
    ensures var v := CycleVerdict(g, source, candidates);
            && (v.ProvedSafe? ==> forall c :: c in candidates ==> !Reaches(g, c, source))
            && (v.CycleFound? ==> exists c :: c in candidates && Reaches(g, c, source))
            && (v.LimitReached? ==> TooDeep(g, source, candidates) || TooWide(g, source, candidates))
  {
    var (v, t) := VisitAll(g, source, candidates, 1, START);
    match v
    case ProvedSafe =>
      VisitAllExpands(g, source, candidates, 1, START, {});
      forall c | c in candidates
        ensures !Reaches(g, c, source)
      {
        if Reaches(g, c, source) {
          var p :| IsWalkBetween(g, p, c, source);
          ClosedSetHoldsWalks(g, t.visited, p);
        }
      }
    case CycleFound =>
      var _ := VisitAllFindsWalk(g, source, candidates, 1, START);
    case LimitReached =>
      forall n | n in candidates
        ensures ProbeWalk(g, source, candidates, [] + [n])
      {
        assert [] + [n] == [n];
      }
      VisitAllAccounts(g, source, candidates, [], candidates, START);
  }

  /** Within the supported bounds the verdict decides the question either way. */
  lemma VerdictDecidesWithinBounds(g: Digraph, source: Node, candidates: seq<Node>)
    requires !TooDeep(g, source, candidates) && !TooWide(g, source, candidates)
    ensures CycleVerdict(g, source, candidates) ==
            if exists c :: c in candidates && Reaches(g, c, source) then CycleFound else ProvedSafe
  {
    VerdictMeaning(g, source, candidates);
  }

  /** The search as the source runs it: a visited set and a node budget that the
      recursion updates in place. */
  class CycleSearch {
    const graph: Digraph
    const source: Node
    var visited: set<Node>
    var budget: int

    function State(): Search
      reads this
    {
      Search(visited, budget)
    }

    constructor (graph: Digraph, source: Node)
      ensures this.graph == graph && this.source == source && State() == START
    {
      this.graph, this.source := graph, source;
      visited, budget := {}, MAX_NODES;
    }

    method Walk(node: Node, depth: nat) returns (v: Verdict)
      requires 1 <= depth <= MAX_DEPTH
      modifies this
      ensures (v, State()) == Visit(graph, source, node, depth, old(State()))
      decreases MAX_DEPTH - depth
    {
      if node == source {
        return CycleFound;
      }
      if node in visited {
        return ProvedSafe;
      }
      if budget <= 0 {
        return LimitReached;
      }
      budget := budget - 1;
      visited := visited + {node};
      var nexts := Outgoing(graph, node);
      if |nexts| == 0 {
        return ProvedSafe;
      }
      if depth + 1 > MAX_DEPTH {
        return LimitReached;
      }
      ghost var entered := State();
      for i := 0 to |nexts|
        invariant VisitAll(graph, source, nexts, depth + 1, entered) == VisitAll(graph, source, nexts[i..], depth + 1, State())
      {
        assert nexts[i..][1..] == nexts[i + 1..];
        var inner := Walk(nexts[i], depth + 1);
        if !inner.ProvedSafe? {
          return inner;
        }
      }
      return ProvedSafe;
    }

    method WalkAll(targets: seq<Node>) returns (v: Verdict)
      modifies this
      ensures (v, State()) == VisitAll(graph, source, targets, 1, old(State()))
    {
      for i := 0 to |targets|
        invariant VisitAll(graph, source, targets, 1, old(State())) == VisitAll(graph, source, targets[i..], 1, State())
      {
        assert targets[i..][1..] == targets[i + 1..];
        v := Walk(targets[i], 1);
        if !v.ProvedSafe? {
          return v;
        }
      }
      return ProvedSafe;
    }
  }

  // -------------------------------------------------- changing one node's edges

  /** Only `s` changed its targets, and none of its new ones reaches it. */
  ghost predicate SafeRewrite(g: Digraph, h: Digraph, s: Node) {
    && (forall n :: n != s ==> forall t :: t in Outgoing(h, n) ==> t in Outgoing(g, n))
    && (forall t :: t in Outgoing(h, s) && t !in Outgoing(g, s) ==> !Reaches(g, t, s))
  }

  /** The part of a walk up to its first visit of `s` uses no edge of `s`. */
  lemma {:induction false} WalkToFirstVisit(g: Digraph, h: Digraph, s: Node, p: seq<Node>)
    requires SafeRewrite(g, h, s) && IsWalk(h, p) && s in p
    ensures Reaches(g, p[0], s)
  {
    if p[0] == s {
      assert IsWalkBetween(g, [s], s, s);
    } else {
      assert s in p[1..];
      WalkToFirstVisit(g, h, s, p[1..]);
      assert p[1] in Outgoing(h, p[0]);
      WalkFrom(g, p[0], p[1], s);
    }
  }

  /** A walk that never meets `s` existed before the rewrite. */
  lemma WalkAroundRewrite(g: Digraph, h: Digraph, s: Node, p: seq<Node>)
    requires SafeRewrite(g, h, s) && IsWalk(h, p) && s !in p
    ensures IsWalk(g, p)
  {
    forall i | 0 <= i < |p| - 1
      ensures p[i + 1] in Outgoing(g, p[i])
    {
      assert p[i] in p;
    }
  }

  /** Rewriting one node's targets keeps the graph acyclic when no added target
      already reaches the node; preserved targets need no fresh proof. */
  lemma RewriteKeepsAcyclic(g: Digraph, h: Digraph, s: Node)
    requires Acyclic(g) && SafeRewrite(g, h, s)
    ensures Acyclic(h)
  {
    forall a, t | t in Outgoing(h, a)
      ensures !Reaches(h, t, a)
    {
      if Reaches(h, t, a) {
        var p :| IsWalkBetween(h, p, t, a);
        if s in p {
          // Rotate the cycle so that it starts at `s`.
          var k :| 0 <= k < |p| && p[k] == s;
          var q := p[k..] + p[..k + 1];
          assert IsWalk(h, q) by {
            forall i | 0 <= i < |q| - 1
              ensures q[i + 1] in Outgoing(h, q[i])
            {
              if i == |p| - k - 1 {
                assert q[i] == a && q[i + 1] == t;
              }
            }
          }
          assert q[0] == s && q[|q| - 1] == s && |q| >= 2;
          var rest := q[1..];
          assert rest[|rest| - 1] == s;
          assert IsWalk(h, rest);
          assert q[1] in Outgoing(h, s);
          WalkToFirstVisit(g, h, s, rest);
        } else {
          WalkAroundRewrite(g, h, s, p);
          assert a in p;
          assert IsWalkBetween(g, p, t, a);
        }
      }
    }
  }
}
