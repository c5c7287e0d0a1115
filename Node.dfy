/**
 * The search node of src/Node.java: a state with the parent it was reached
 * from, the action that reached it, its path cost, depth and heuristic value,
 * and the reconstruction of the plan from the parent chain.
 */
module SearchNode {
  import opened Wrappers
  import opened Bottles

  /** A node of the search tree. The parent chain always ends in a root whose
      parent is None, since a parent exists before its children. */
  datatype Node = Node(
    state: State,
    parent: Option<Node>,
    action: Option<string>,
    pathCost: int,
    depth: int,
    heuristicCost: int)

  /** The five-argument constructor: the heuristic value starts at 0, so the
      total cost is the path cost. */
  function NewNode(state: State, parent: Option<Node>, action: Option<string>, pathCost: int, depth: int): (n: Node)
    ensures n.state == state && n.parent == parent && n.action == action
    ensures n.pathCost == pathCost && n.depth == depth
    ensures n.heuristicCost == 0 && TotalCost(n) == pathCost
  {
    Node(state, parent, action, pathCost, depth, 0)
  }

  /** The six-argument constructor runs the five-argument one and then sets
      the heuristic value. */
  function NewNodeWithHeuristic(state: State, parent: Option<Node>, action: Option<string>,
                                pathCost: int, depth: int, heuristicCost: int): (n: Node)
    ensures n.state == state && n.parent == parent && n.action == action
    ensures n.pathCost == pathCost && n.depth == depth && n.heuristicCost == heuristicCost
    ensures TotalCost(n) == pathCost + heuristicCost
  {
    SetHeuristicCost(NewNode(state, parent, action, pathCost, depth), heuristicCost)
  }

  /** The priority used by A*. */
  function TotalCost(n: Node): (t: int)
    ensures n.heuristicCost == 0 ==> t == n.pathCost
    ensures n.heuristicCost >= 0 ==> t >= n.pathCost
  {
    n.pathCost + n.heuristicCost
  }

  /** The node with a new heuristic value; nothing else about it changes. */
  function SetHeuristicCost(n: Node, heuristicCost: int): (m: Node)
    ensures m.heuristicCost == heuristicCost
    ensures m.state == n.state && m.parent == n.parent && m.action == n.action
    ensures m.pathCost == n.pathCost && m.depth == n.depth
    ensures TotalCost(m) == TotalCost(n) - n.heuristicCost + heuristicCost
  {
    n.(heuristicCost := heuristicCost)
  }

  /** State equality with a given goal state, bottle by bottle. */
  function IsGoalState(n: Node, goalState: State): (b: bool)
    ensures b <==> |n.state| == |goalState| && forall k :: 0 <= k < |goalState| ==> n.state[k] == goalState[k]
  {
    n.state == goalState
  }

  // ---------------------------------------------------------------------------
  // Path reconstruction
  // ---------------------------------------------------------------------------

  /** The number of parent links from the node up to the root. */
  function ChainLength(n: Node): nat
  {
    match n.parent
    case None => 0
    case Some(p) => 1 + ChainLength(p)
  }

  /** How an action appears in the path: a missing action reads "null", as
      Java's string concatenation prints it. */
  function ActionText(a: Option<string>): string
  {
    match a
    case Some(s) => s
    case None => "null"
  }

  /** The actions of the non-root nodes of the chain, root side first. */
  function Actions(n: Node): seq<string>
  {
    match n.parent
    case None => []
    case Some(p) => Actions(p) + [ActionText(n.action)]
  }

  /** The strings joined by single commas. */
  function JoinComma(xs: seq<string>): string
  {
    if |xs| == 0 then ""
    else if |xs| == 1 then xs[0]
    else xs[0] + "," + JoinComma(xs[1..])
  }

  /** Every string followed by a comma, as the path is built up. */
  function Terminated(xs: seq<string>): string
  {
    if |xs| == 0 then "" else xs[0] + "," + Terminated(xs[1..])
  }

  lemma {:induction false} TerminatedIsJoinPlusComma(xs: seq<string>)
    requires |xs| > 0
    ensures Terminated(xs) == JoinComma(xs) + ","
  {
    if |xs| > 1 {
      TerminatedIsJoinPlusComma(xs[1..]);
    }
  }

  /** The plan has one action per parent link: the root's own action never
      appears. */
  lemma {:induction false} ActionsCount(n: Node)
    ensures |Actions(n)| == ChainLength(n)
    ensures n.parent.Some? ==> Actions(n)[|Actions(n)| - 1] == ActionText(n.action)
  {
    match n.parent
    case None =>
    case Some(p) => ActionsCount(p);
  }

  /** A plan made of comma-free actions has one comma fewer than it has
      actions. */
  lemma {:induction false} JoinCommaCommas(xs: seq<string>)
    requires |xs| > 0
    requires forall k :: 0 <= k < |xs| ==> ',' !in xs[k]
    ensures multiset(JoinComma(xs))[','] == |xs| - 1
  {
    if |xs| > 1 {
      JoinCommaCommas(xs[1..]);
      assert multiset(JoinComma(xs)) == multiset(xs[0]) + multiset{','} + multiset(JoinComma(xs[1..]));
    }
  }

  /** Walks the parent chain, putting each action and a comma in front of the
      path built so far, then drops the final comma. */
  method GetSolutionPath(n: Node) returns (path: string)
    ensures path == JoinComma(Actions(n))
    ensures n.parent.None? ==> path == ""
  {
    var solutionPath: string := "";
    var currentNode := n;
    ghost var done: seq<string> := [];
    while currentNode.parent.Some?
      invariant Actions(n) == Actions(currentNode) + done
      invariant solutionPath == Terminated(done)
      decreases currentNode
    {
      var a := ActionText(currentNode.action);
      assert ([a] + done)[1..] == done;
      solutionPath := a + "," + solutionPath;
      done := [a] + done;
      currentNode := currentNode.parent.value;
    }
    assert Actions(n) == done;
    if |done| > 0 {
      TerminatedIsJoinPlusComma(done);
    }
    path := if |solutionPath| > 0 then solutionPath[..|solutionPath| - 1] else "";
  }
}
