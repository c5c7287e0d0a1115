/**
 * The frontier and the five queuing functions of src/QueuingFunctions.java.
 *
 * Breadth-first and depth-first take their node out of the frontier. The
 * uniform-cost, greedy and A* functions copy the frontier into a fresh
 * priority queue and take the minimum out of that copy, so the frontier
 * itself is left as it was.
 */
module QueuingFunctions {
  import opened Wrappers
  import opened SearchNode

  /** The queue of nodes the search loop owns. */
  class Frontier {
    var nodes: seq<Node>

    constructor ()
      ensures nodes == []
    {
      nodes := [];
    }

    method Add(n: Node)
      modifies this
      ensures nodes == old(nodes) + [n]
    {
      nodes := nodes + [n];
    }

    method AddAll(ns: seq<Node>)
      modifies this
      ensures nodes == old(nodes) + ns
    {
      nodes := nodes + ns;
    }
  }

  /** The search strategies that the strategy codes select. */
  datatype Strategy = BF | DF | UC | GR | AS

  /** The strategies whose queuing function takes the node out of the frontier. */
  predicate Removes(s: Strategy)
  {
    s.BF? || s.DF?
  }

  /** The orderings the three priority queues are built with. */
  datatype Priority = ByPathCost | ByHeuristic | ByTotalCost

  function Key(p: Priority, n: Node): int
  {
    match p
    case ByPathCost => n.pathCost
    case ByHeuristic => n.heuristicCost
    case ByTotalCost => TotalCost(n)
  }

  /** n is in q and no node of q comes strictly before it under p. */
  predicate IsMinimal(n: Node, q: seq<Node>, p: Priority)
  {
    n in q && forall m :: m in q ==> Key(p, n) <= Key(p, m)
  }

  /** What one call of a strategy's queuing function may do: the node it
      returns and the frontier it leaves. Ties among the priority strategies
      are broken in no specified way, so any minimal node is allowed. */
  predicate Selected(s: Strategy, before: seq<Node>, n: Node, after: seq<Node>)
  {
    match s
    case BF => before != [] && n == before[0] && after == before[1..]
    case DF => before != [] && n == before[|before| - 1] && after == before[..|before| - 1]
    case UC => after == before && IsMinimal(n, before, ByPathCost)
    case GR => after == before && IsMinimal(n, before, ByHeuristic)
    case AS => after == before && IsMinimal(n, before, ByTotalCost)
  }

  /** A selected node comes from the frontier; breadth-first and depth-first
      leave the frontier without exactly that one node, the others leave it
      as it was. */
  lemma SelectedFromFrontier(s: Strategy, before: seq<Node>, n: Node, after: seq<Node>)
    requires Selected(s, before, n, after)
    ensures n in before
    ensures Removes(s) ==> multiset(after) + multiset{n} == multiset(before)
    ensures !Removes(s) ==> after == before
    ensures forall m :: m in after ==> m in before
  {
    match s
    case BF =>
      assert before == [n] + after;
    case DF =>
      assert before == after + [n];
    case _ =>
  }

  /** The frontier a strategy's queuing function leaves behind: breadth-first
      drops the head, depth-first the last node, and the priority strategies
      leave it as it was. */
  function Rest(s: Strategy, q: seq<Node>): (r: seq<Node>)
    ensures |r| == if Removes(s) && q != [] then |q| - 1 else |q|
    ensures forall m :: m in r ==> m in q
  {
    match s
    case BF => if q == [] then [] else q[1..]
    case DF => if q == [] then [] else q[..|q| - 1]
    case _ => q
  }

  /** The frontier left by a selection is determined by the strategy alone. */
  lemma SelectedRest(s: Strategy, before: seq<Node>, n: Node, after: seq<Node>)
    requires Selected(s, before, n, after)
    ensures after == Rest(s, before)
  {
  }

  /** Puts the nodes into a priority queue and polls it: a node of least key,
      or None for an empty queue. */
  method PollMin(q: seq<Node>, p: Priority) returns (r: Option<Node>)
    ensures r.None? <==> q == []
    ensures r.Some? ==> IsMinimal(r.value, q, p)
  {
    if q == [] {
      return None;
    }
    var best := q[0];
    var t := 1;
    while t < |q|
      invariant 1 <= t <= |q|
      invariant best in q[..t]
      invariant forall u :: 0 <= u < t ==> Key(p, best) <= Key(p, q[u])
    {
      if Key(p, q[t]) < Key(p, best) {
        best := q[t];
      }
      t := t + 1;
    }
    assert q[..t] == q;
    return Some(best);
  }

  /** FIFO: polls the head of the frontier; None when it is empty. */
  method BfsQingFunction(queue: Frontier) returns (r: Option<Node>)
    modifies queue
    ensures old(queue.nodes) == [] ==> r.None? && queue.nodes == []
    ensures old(queue.nodes) != [] ==> r == Some(old(queue.nodes)[0]) && queue.nodes == old(queue.nodes)[1..]
  {
    if queue.nodes == [] {
      return None;
    }
    r := Some(queue.nodes[0]);
    queue.nodes := queue.nodes[1..];
  }

  /** LIFO: removes the last node of the frontier. On an empty frontier the
      code throws; None stands for that. */
  method DfsQingFunction(queue: Frontier) returns (r: Option<Node>)
    modifies queue
    ensures old(queue.nodes) == [] ==> r.None? && queue.nodes == []
    ensures old(queue.nodes) != [] ==>
      && r == Some(old(queue.nodes)[|old(queue.nodes)| - 1])
      && queue.nodes == old(queue.nodes)[..|old(queue.nodes)| - 1]
  {
    if queue.nodes == [] {
      return None;
    }
    var last := |queue.nodes| - 1;
    r := Some(queue.nodes[last]);
    queue.nodes := queue.nodes[..last];
  }

  /** Uniform cost: a node of least path cost, read from a copy. */
  method UcsQingFunction(queue: Frontier) returns (r: Option<Node>)
    ensures r.None? <==> queue.nodes == []
    ensures r.Some? ==> IsMinimal(r.value, queue.nodes, ByPathCost)
  {
    r := PollMin(queue.nodes, ByPathCost);
  }

  /** Greedy: a node of least heuristic value, read from a copy. */
  method GreedyQingFunction1(queue: Frontier) returns (r: Option<Node>)
    ensures r.None? <==> queue.nodes == []
    ensures r.Some? ==> IsMinimal(r.value, queue.nodes, ByHeuristic)
  {
    r := PollMin(queue.nodes, ByHeuristic);
  }

  /** A*: a node of least total cost, read from a copy. */
  method AStarQingFunction(queue: Frontier) returns (r: Option<Node>)
    ensures r.None? <==> queue.nodes == []
    ensures r.Some? ==> IsMinimal(r.value, queue.nodes, ByTotalCost)
  {
    r := PollMin(queue.nodes, ByTotalCost);
  }

  /** Applies the strategy's queuing function to a non-empty frontier, as the
      search loop does. */
  method Select(s: Strategy, queue: Frontier) returns (n: Node)
    requires queue.nodes != []
    modifies queue
    ensures Selected(s, old(queue.nodes), n, queue.nodes)
  {
    var r: Option<Node>;
    match s {
      case BF => r := BfsQingFunction(queue);
      case DF => r := DfsQingFunction(queue);
      case UC => r := UcsQingFunction(queue);
      case GR => r := GreedyQingFunction1(queue);
      case AS => r := AStarQingFunction(queue);
    }
    n := r.value;
  }

  /** With every heuristic value 0, A* picks exactly the nodes uniform cost
      may pick. */
  lemma ZeroHeuristicAStarIsUniformCost(n: Node, q: seq<Node>)
    requires forall m :: m in q ==> m.heuristicCost == 0
    ensures IsMinimal(n, q, ByTotalCost) <==> IsMinimal(n, q, ByPathCost)
  {
  }

  /** With every heuristic value 0, greedy may pick any node of the frontier. */
  lemma ZeroHeuristicGreedyPicksAny(n: Node, q: seq<Node>)
    requires forall m :: m in q ==> m.heuristicCost == 0
    ensures IsMinimal(n, q, ByHeuristic) <==> n in q
  {
  }
}
