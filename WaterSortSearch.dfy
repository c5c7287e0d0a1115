/**
 * The water-sort search problem of src/WaterSortSearch.java together with the
 * generic search loop of src/GenericSearch.java that it inherits: successor
 * generation, the search loop under each strategy, and the strategy-code
 * dispatch of solve.
 */
module WaterSortSearch {
  import opened Wrappers
  import opened Bottles
  import opened SearchNode
  import opened QueuingFunctions

  // ---------------------------------------------------------------------------
  // Action labels
  // ---------------------------------------------------------------------------

  function Digit(d: nat): (c: char)
    requires d < 10
    ensures '0' <= c <= '9'
  {
    ('0' as int + d) as char
  }

  /** The decimal form of a natural number, as Java's string concatenation
      writes an int. */
  function NatToString(n: nat): (s: string)
    ensures |s| > 0
    ensures forall k :: 0 <= k < |s| ==> '0' <= s[k] <= '9'
  {
    if n < 10 then [Digit(n)] else NatToString(n / 10) + [Digit(n % 10)]
  }

  lemma {:induction false} NatToStringInjective(a: nat, b: nat)
    requires NatToString(a) == NatToString(b)
    ensures a == b
  {
    if a >= 10 && b >= 10 {
      var sa, sb := NatToString(a / 10), NatToString(b / 10);
      assert NatToString(a) == sa + [Digit(a % 10)];
      assert NatToString(b) == sb + [Digit(b % 10)];
      assert sa == NatToString(a)[..|sa|] && sb == NatToString(b)[..|sb|];
      NatToStringInjective(a / 10, b / 10);
    }
  }

  /** The label of the pour from bottle i into bottle j. */
  function PourLabel(i: nat, j: nat): (l: string)
    ensures |l| > 6 && l[..5] == "pour_"
    ensures forall k :: 5 <= k < |l| ==> l[k] == '_' || '0' <= l[k] <= '9'
  {
    "pour_" + NatToString(i) + "_" + NatToString(j)
  }

  lemma FirstUnderscore(a: string, b: string)
    requires forall k :: 0 <= k < |a| ==> '0' <= a[k] <= '9'
    ensures IndexOf(a + "_" + b, '_') == |a|
  {
    var x := a + "_" + b;
    assert x[|a|] == '_';
    assert x[..|a|] == a;
  }

  /** Two digit strings joined by '_' to anything split back at the first
      '_'. */
  lemma SplitAtUnderscore(a: string, b: string, a': string, b': string)
    requires forall k :: 0 <= k < |a| ==> '0' <= a[k] <= '9'
    requires forall k :: 0 <= k < |a'| ==> '0' <= a'[k] <= '9'
    requires a + "_" + b == a' + "_" + b'
    ensures a == a' && b == b'
  {
    var x := a + "_" + b;
    FirstUnderscore(a, b);
    FirstUnderscore(a', b');
    assert a == x[..|a|] && a' == x[..|a'|];
    assert b == x[|a| + 1..] && b' == x[|a'| + 1..];
  }

  lemma PourLabelNoComma(i: nat, j: nat)
    ensures ',' !in PourLabel(i, j)
  {
    var l := PourLabel(i, j);
    forall k | 0 <= k < 5 ensures l[k] != ',' {
      assert l[k] == l[..5][k];
    }
  }

  /** Different pours get different labels, and no label holds a comma, so a
      plan names its pours unambiguously. */
  lemma PourLabelInjective(i: nat, j: nat, i': nat, j': nat)
    requires PourLabel(i, j) == PourLabel(i', j')
    ensures i == i' && j == j'
    ensures ',' !in PourLabel(i, j)
  {
    var a, b, a', b' := NatToString(i), NatToString(j), NatToString(i'), NatToString(j');
    var l := PourLabel(i, j);
    // the first '_' after "pour_" ends the source index
    assert l == "pour_" + (a + "_" + b) && l == "pour_" + (a' + "_" + b');
    assert l[5..] == a + "_" + b == a' + "_" + b';
    SplitAtUnderscore(a, b, a', b');
    NatToStringInjective(i, i');
    NatToStringInjective(j, j');
    PourLabelNoComma(i, j);
  }

  // ---------------------------------------------------------------------------
  // Successors
  // ---------------------------------------------------------------------------

  /** Bottles i and j exist, differ, and the pour between them is allowed. */
  predicate PourPossible(s: State, i: nat, j: nat)
  {
    i < |s| && j < |s| && i != j && |s[i]| > 0 && |s[j]| > 0 && CanPour(s[i], s[j])
  }

  /** The successor reached by pouring bottle i into bottle j: one more unit
      of path cost and one more level of depth. */
  function Child(node: Node, i: nat, j: nat): Node
    requires PourPossible(node.state, i, j)
  {
    NewNode(PourState(node.state, i, j), Some(node), Some(PourLabel(i, j)), node.pathCost + 1, node.depth + 1)
  }

  /** (i, j) comes strictly before (i', j') in row-major order. */
  predicate Before(p: (nat, nat), q: (nat, nat))
  {
    p.0 < q.0 || (p.0 == q.0 && p.1 < q.1)
  }

  /** The possible pours out of bottle i into bottles 0 .. j-1, in order. */
  function PourRow(s: State, i: nat, j: nat): (r: seq<(nat, nat)>)
    requires j <= |s|
    ensures forall k :: 0 <= k < |r| ==> r[k].0 == i && r[k].1 < j
  {
    if j == 0 then []
    else PourRow(s, i, j - 1) + (if PourPossible(s, i, j - 1) then [(i, j - 1)] else [])
  }

  /** The possible pours out of bottles 0 .. i-1, row by row. */
  function PourGrid(s: State, i: nat): (r: seq<(nat, nat)>)
    requires i <= |s|
    ensures forall k :: 0 <= k < |r| ==> r[k].0 < i
  {
    if i == 0 then [] else PourGrid(s, i - 1) + PourRow(s, i - 1, |s|)
  }

  /** All possible pours of a state in row-major order, i outer and j inner. */
  function Pours(s: State): seq<(nat, nat)>
  {
    PourGrid(s, |s|)
  }

  lemma {:induction false} PourRowOrdered(s: State, i: nat, j: nat)
    requires j <= |s|
    ensures forall k, l :: 0 <= k < l < |PourRow(s, i, j)| ==> PourRow(s, i, j)[k].1 < PourRow(s, i, j)[l].1
  {
    if j > 0 {
      PourRowOrdered(s, i, j - 1);
    }
  }

  lemma {:induction false} PourGridOrdered(s: State, i: nat)
    requires i <= |s|
    ensures forall k, l :: 0 <= k < l < |PourGrid(s, i)| ==> Before(PourGrid(s, i)[k], PourGrid(s, i)[l])
  {
    if i > 0 {
      var g, r := PourGrid(s, i - 1), PourRow(s, i - 1, |s|);
      PourGridOrdered(s, i - 1);
      PourRowOrdered(s, i - 1, |s|);
      assert PourGrid(s, i) == g + r;
      OrderedAppend(g, r, i - 1);
    }
  }

  /** Rows before row i, in order, followed by row i in increasing column
      order, are in row-major order. */
  lemma OrderedAppend(g: seq<(nat, nat)>, r: seq<(nat, nat)>, i: nat)
    requires forall k :: 0 <= k < |g| ==> g[k].0 < i
    requires forall k :: 0 <= k < |r| ==> r[k].0 == i
    requires forall k, l :: 0 <= k < l < |g| ==> Before(g[k], g[l])
    requires forall k, l :: 0 <= k < l < |r| ==> r[k].1 < r[l].1
    ensures forall k, l :: 0 <= k < l < |g + r| ==> Before((g + r)[k], (g + r)[l])
  {
    var q := g + r;
    forall k, l | 0 <= k < l < |q| ensures Before(q[k], q[l]) {
      if l < |g| {
        assert q[k] == g[k] && q[l] == g[l];
      } else if k < |g| {
        assert q[k] == g[k] && q[l] == r[l - |g|];
      } else {
        assert q[k] == r[k - |g|] && q[l] == r[l - |g|];
      }
    }
  }

  /** A possible pour out of bottle i into a bottle before j is listed in
      PourRow(s, i, j), at index k. */
  lemma {:induction false} PourRowComplete(s: State, i: nat, j: nat, j': nat) returns (k: nat)
    requires j <= |s| && j' < j && PourPossible(s, i, j')
    ensures k < |PourRow(s, i, j)| && PourRow(s, i, j)[k] == (i, j')
  {
    var r := PourRow(s, i, j - 1);
    assert PourRow(s, i, j) == r + (if PourPossible(s, i, j - 1) then [(i, j - 1)] else []);
    if j' < j - 1 {
      k := PourRowComplete(s, i, j - 1, j');
      assert PourRow(s, i, j)[k] == r[k];
    } else {
      k := |r|;
    }
  }

  /** An entry of the row of bottle i' < i is listed in PourGrid(s, i), at
      index k. */
  lemma {:induction false} PourGridComplete(s: State, i: nat, i': nat, t: nat) returns (k: nat)
    requires i <= |s| && i' < i && t < |PourRow(s, i', |s|)|
    ensures k < |PourGrid(s, i)| && PourGrid(s, i)[k] == PourRow(s, i', |s|)[t]
  {
    var g, r := PourGrid(s, i - 1), PourRow(s, i - 1, |s|);
    assert PourGrid(s, i) == g + r;
    if i' < i - 1 {
      var k' := PourGridComplete(s, i - 1, i', t);
      k := IndexInConcat(g, r, k');
    } else {
      k := IndexInConcat(g, r, |g| + t);
    }
  }

  /** Index k of g + r holds g's entry k, or r's entry k - |g|. */
  lemma IndexInConcat(g: seq<(nat, nat)>, r: seq<(nat, nat)>, k: nat) returns (k': nat)
    requires k < |g| + |r|
    ensures k' == k < |g + r|
    ensures (g + r)[k'] == if k < |g| then g[k] else r[k - |g|]
  {
    k' := k;
  }

  lemma {:induction false} PourRowSound(s: State, i: nat, j: nat)
    requires j <= |s|
    ensures forall k :: 0 <= k < |PourRow(s, i, j)| ==> PourPossible(s, PourRow(s, i, j)[k].0, PourRow(s, i, j)[k].1)
  {
    if j > 0 {
      PourRowSound(s, i, j - 1);
    }
  }

  lemma {:induction false} PourGridSound(s: State, i: nat)
    requires i <= |s|
    ensures forall k :: 0 <= k < |PourGrid(s, i)| ==> PourPossible(s, PourGrid(s, i)[k].0, PourGrid(s, i)[k].1)
  {
    if i > 0 {
      var g, r := PourGrid(s, i - 1), PourRow(s, i - 1, |s|);
      PourGridSound(s, i - 1);
      PourRowSound(s, i - 1, |s|);
      assert PourGrid(s, i) == g + r;
      var ps: seq<(nat, nat)> := g + r;
      forall k | 0 <= k < |ps| ensures PourPossible(s, ps[k].0, ps[k].1) {
        if k < |g| {
          assert ps[k] == g[k];
        } else {
          assert ps[k] == r[k - |g|];
        }
      }
    }
  }

  /** Pours(s) lists every possible pour exactly once, in row-major order. */
  lemma PoursExactly(s: State)
    ensures forall i: nat, j: nat :: (i, j) in Pours(s) <==> PourPossible(s, i, j)
    ensures forall k, l :: 0 <= k < l < |Pours(s)| ==> Before(Pours(s)[k], Pours(s)[l])
  {
    forall i: nat, j: nat | PourPossible(s, i, j) ensures (i, j) in Pours(s) {
      var t := PourRowComplete(s, i, |s|, j);
      var k := PourGridComplete(s, |s|, i, t);
      assert Pours(s)[k] == (i, j);
    }
    PourGridSound(s, |s|);
    PourGridOrdered(s, |s|);
  }

  /** The successors for pours out of bottle i into bottles 0 .. j-1, in the
      order the inner loop of expand produces them. */
  function ChildRow(node: Node, i: nat, j: nat): seq<Node>
    requires j <= |node.state|
  {
    if j == 0 then []
    else ChildRow(node, i, j - 1) + (if PourPossible(node.state, i, j - 1) then [Child(node, i, j - 1)] else [])
  }

  /** The successors for pours out of bottles 0 .. i-1, row by row. */
  function ChildGrid(node: Node, i: nat): seq<Node>
    requires i <= |node.state|
  {
    if i == 0 then [] else ChildGrid(node, i - 1) + ChildRow(node, i - 1, |node.state|)
  }

  /** The successors of a node, as expand lists them. */
  function Children(node: Node): seq<Node>
  {
    ChildGrid(node, |node.state|)
  }

  /** cs lists the successors for the pours ps, one for one. */
  predicate Matches(node: Node, cs: seq<Node>, ps: seq<(nat, nat)>)
  {
    |cs| == |ps| && forall k :: 0 <= k < |ps| ==> PourPossible(node.state, ps[k].0, ps[k].1) && cs[k] == Child(node, ps[k].0, ps[k].1)
  }

  lemma {:induction false} ChildRowMatches(node: Node, i: nat, j: nat)
    requires j <= |node.state|
    ensures Matches(node, ChildRow(node, i, j), PourRow(node.state, i, j))
  {
    if j > 0 {
      ChildRowMatches(node, i, j - 1);
    }
  }

  lemma {:induction false} ChildGridMatches(node: Node, i: nat)
    requires i <= |node.state|
    ensures Matches(node, ChildGrid(node, i), PourGrid(node.state, i))
  {
    if i > 0 {
      ChildGridMatches(node, i - 1);
      ChildRowMatches(node, i - 1, |node.state|);
      var g, r := PourGrid(node.state, i - 1), PourRow(node.state, i - 1, |node.state|);
      var cg, cr := ChildGrid(node, i - 1), ChildRow(node, i - 1, |node.state|);
      assert PourGrid(node.state, i) == g + r;
      assert ChildGrid(node, i) == cg + cr;
      MatchesAppend(node, cg, g, cr, r);
    }
  }

  lemma MatchesAppend(node: Node, cs: seq<Node>, ps: seq<(nat, nat)>, cs': seq<Node>, ps': seq<(nat, nat)>)
    requires Matches(node, cs, ps) && Matches(node, cs', ps')
    ensures Matches(node, cs + cs', ps + ps')
  {
    var c, p := cs + cs', ps + ps';
    forall k | 0 <= k < |p| ensures PourPossible(node.state, p[k].0, p[k].1) && c[k] == Child(node, p[k].0, p[k].1) {
      if k < |ps| {
        assert c[k] == cs[k] && p[k] == ps[k];
      } else {
        assert c[k] == cs'[k - |ps|] && p[k] == ps'[k - |ps|];
      }
    }
  }

  /** Every successor has the node as parent, a pour label, one more unit of
      cost and depth and a zero heuristic, and each possible pour gives one. */
  lemma ChildrenExactly(node: Node)
    ensures |Children(node)| == |Pours(node.state)|
    ensures forall k :: 0 <= k < |Children(node)| ==>
      var c, p := Children(node)[k], Pours(node.state)[k];
      && PourPossible(node.state, p.0, p.1) && c == Child(node, p.0, p.1)
      && c.parent == Some(node) && c.action == Some(PourLabel(p.0, p.1))
      && c.state == PourState(node.state, p.0, p.1)
      && c.pathCost == node.pathCost + 1 && c.depth == node.depth + 1 && c.heuristicCost == 0
    ensures forall i: nat, j: nat :: PourPossible(node.state, i, j) ==> Child(node, i, j) in Children(node)
  {
    PoursExactly(node.state);
    ChildGridMatches(node, |node.state|);
    var ps := Pours(node.state);
    forall i: nat, j: nat | PourPossible(node.state, i, j) ensures Child(node, i, j) in Children(node) {
      var k :| 0 <= k < |ps| && ps[k] == (i, j);
      assert Children(node)[k] == Child(node, i, j);
    }
  }

  // ---------------------------------------------------------------------------
  // Nodes the search can reach
  // ---------------------------------------------------------------------------

  /** The root node the search starts from. */
  function Root(init: State): (n: Node)
    ensures n.parent.None? && n.action.None? && n.pathCost == 0 && n.depth == 0 && n.state == init
  {
    NewNode(init, None, None, 0, 0)
  }

  /** n heads a chain of legal pours back to the root of init, each step
      labelled with its pour: replaying the plan from init reaches n. */
  ghost predicate Reached(n: Node, init: State)
    decreases n
  {
    match n.parent
    case None => n == Root(init)
    case Some(p) => Reached(p, init) && exists i: nat, j: nat :: PourPossible(p.state, i, j) && n == Child(p, i, j)
  }

  /** Along a reached chain the path cost, the depth and the number of actions
      in the plan agree, and only the root costs nothing. */
  lemma {:induction false} ReachedCosts(n: Node, init: State)
    requires Reached(n, init)
    ensures n.pathCost == n.depth == ChainLength(n) == |Actions(n)|
    ensures n.heuristicCost == 0
    ensures n.pathCost == 0 <==> n == Root(init)
  {
    ActionsCount(n);
    match n.parent
    case None =>
    case Some(p) => ReachedCosts(p, init);
  }

  /** Every state reached from a well-formed state is well formed, and every
      state reached from one without empty bottles has none. */
  lemma {:induction false} ReachedKeepsShape(n: Node, init: State)
    requires Reached(n, init)
    ensures NonEmptyBottles(init) ==> NonEmptyBottles(n.state)
    ensures WellFormedState(init) ==> WellFormedState(n.state)
    ensures |n.state| == |init|
  {
    match n.parent
    case None =>
    case Some(p) =>
      ReachedKeepsShape(p, init);
      var i: nat, j: nat :| PourPossible(p.state, i, j) && n == Child(p, i, j);
      PourKeepsShape(p.state, i, j);
  }

  lemma PourKeepsShape(s: State, i: nat, j: nat)
    requires PourPossible(s, i, j)
    ensures |PourState(s, i, j)| == |s|
    ensures NonEmptyBottles(s) ==> NonEmptyBottles(PourState(s, i, j))
    ensures WellFormedState(s) ==> WellFormedState(PourState(s, i, j))
  {
    if WellFormedState(s) {
      PourKeepsWellFormed(s, i, j);
    }
  }

  /** Each successor of a reached node is reached. */
  lemma ChildrenReached(node: Node, init: State)
    requires Reached(node, init)
    ensures forall c :: c in Children(node) ==> Reached(c, init)
  {
    ChildrenExactly(node);
    PoursExactly(node.state);
    forall c | c in Children(node) ensures Reached(c, init) {
      var k :| 0 <= k < |Children(node)| && Children(node)[k] == c;
      var p := Pours(node.state)[k];
      assert PourPossible(node.state, p.0, p.1) && c == Child(node, p.0, p.1);
    }
  }

  /** One selection keeps the search loop's invariant: the node selected and
      the frontier left are reached, and under uniform cost and A* the root,
      which stays at the head of the frontier with cost 0, is selected. */
  lemma SelectStep(strategy: Strategy, before: seq<Node>, node: Node, after: seq<Node>, init: State)
    requires Selected(strategy, before, node, after)
    requires forall m :: m in before ==> Reached(m, init)
    requires !Removes(strategy) ==> before != [] && before[0] == Root(init)
    requires NonEmptyBottles(init)
    ensures Reached(node, init) && NonEmptyBottles(node.state)
    ensures forall m :: m in after ==> Reached(m, init)
    ensures !Removes(strategy) ==> after == before
    ensures strategy.UC? || strategy.AS? ==> node == Root(init)
  {
    SelectedFromFrontier(strategy, before, node, after);
    ReachedCosts(node, init);
    ReachedKeepsShape(node, init);
    if strategy.UC? || strategy.AS? {
      var root := before[0];
      assert root in before;
      ReachedCosts(root, init);
      assert Key(ByPathCost, node) <= Key(ByPathCost, root);
    }
  }

  /** Appending the successors of a reached node keeps every node of the
      frontier reached. */
  lemma FrontierGrows(q: seq<Node>, node: Node, init: State)
    requires Reached(node, init)
    requires forall m :: m in q ==> Reached(m, init)
    ensures forall m :: m in q + Children(node) ==> Reached(m, init)
  {
    ChildrenReached(node, init);
  }

  /** a is n or one of the nodes on n's parent chain. */
  ghost predicate Ancestor(a: Node, n: Node)
    decreases n
  {
    a == n || (n.parent.Some? && Ancestor(a, n.parent.value))
  }

  /** Every reached goal lies below some node of the frontier q: a search
      that keeps expanding q's nodes can still find it. */
  ghost predicate Covered(q: seq<Node>, init: State)
  {
    forall n :: Reached(n, init) && IsGoal(n.state) ==> exists a :: a in q && Ancestor(a, n)
  }

  /** The root lies on the parent chain of every reached node. */
  lemma {:induction false} RootAncestor(n: Node, init: State)
    requires Reached(n, init)
    ensures Ancestor(Root(init), n)
  {
    match n.parent
    case None =>
    case Some(p) => RootAncestor(p, init);
  }

  /** Below a reached node x, every reached node other than x lies below one
      of x's successors. */
  lemma {:induction false} ChildOnPath(x: Node, n: Node, init: State)
    requires Reached(n, init) && Ancestor(x, n) && x != n
    ensures exists c :: c in Children(x) && Ancestor(c, n)
    decreases n
  {
    var p := n.parent.value;
    if p == x {
      var i: nat, j: nat :| PourPossible(p.state, i, j) && n == Child(p, i, j);
      ChildrenExactly(x);
      assert n in Children(x) && Ancestor(n, n);
    } else {
      ChildOnPath(x, p, init);
      var c :| c in Children(x) && Ancestor(c, p);
      assert Ancestor(c, n);
    }
  }

  /** One breadth-first or depth-first step keeps every reached goal below
      the frontier: the node taken out is not a goal, and its successors
      are appended in its place. */
  lemma CoveredStep(strategy: Strategy, before: seq<Node>, node: Node, after: seq<Node>, init: State)
    requires Removes(strategy) && Selected(strategy, before, node, after)
    requires Covered(before, init) && !IsGoal(node.state)
    ensures Covered(after + Children(node), init)
  {
    SelectedFromFrontier(strategy, before, node, after);
    var q := after + Children(node);
    forall n | Reached(n, init) && IsGoal(n.state) ensures exists a :: a in q && Ancestor(a, n) {
      var a :| a in before && Ancestor(a, n);
      if a == node {
        ChildOnPath(node, n, init);
        var c :| c in Children(node) && Ancestor(c, n);
        assert c in q;
      } else {
        assert a in multiset(before);
        assert a in multiset(after);
        assert a in q;
      }
    }
  }

  /** One iteration of the search loop: the queuing function selects n from
      the non-empty frontier `before`, n is not a goal, and its successors are
      appended to what the selection left. */
  ghost predicate Step(strategy: Strategy, before: seq<Node>, n: Node, next: seq<Node>)
  {
    && before != []
    && Selected(strategy, before, n, Rest(strategy, before))
    && !IsGoal(n.state)
    && next == Rest(strategy, before) + Children(n)
  }

  /** A run of the search loop: fs[t] is the frontier before iteration t and
      ps[t] the node that iteration expanded; it starts from the root alone. */
  ghost predicate Run(strategy: Strategy, init: State, fs: seq<seq<Node>>, ps: seq<Node>)
  {
    && |fs| == |ps| + 1
    && fs[0] == [Root(init)]
    && forall t :: 0 <= t < |ps| ==> Step(strategy, fs[t], ps[t], fs[t + 1])
  }

  lemma RunExtend(strategy: Strategy, init: State, fs: seq<seq<Node>>, ps: seq<Node>, n: Node, next: seq<Node>)
    requires Run(strategy, init, fs, ps)
    requires Step(strategy, fs[|ps|], n, next)
    ensures Run(strategy, init, fs + [next], ps + [n])
  {
    var fs', ps' := fs + [next], ps + [n];
    forall t | 0 <= t < |ps'| ensures Step(strategy, fs'[t], ps'[t], fs'[t + 1]) {
      if t < |ps| {
        assert fs'[t] == fs[t] && ps'[t] == ps[t] && fs'[t + 1] == fs[t + 1];
      } else {
        assert fs'[t] == fs[|ps|] && ps'[t] == n && fs'[t + 1] == next;
      }
    }
  }

  /** What the search loop keeps true of its frontier q after the run fs, ps:
      q is the run's last frontier and holds only reached nodes; under the
      priority strategies the root stays at its head; under breadth-first and
      depth-first every reached goal still lies below one of its nodes. */
  ghost predicate SearchInvariant(strategy: Strategy, init: State, q: seq<Node>, fs: seq<seq<Node>>, ps: seq<Node>)
  {
    && Run(strategy, init, fs, ps) && fs[|ps|] == q
    && (forall m :: m in q ==> Reached(m, init))
    && (!Removes(strategy) ==> q != [] && q[0] == Root(init))
    && (Removes(strategy) ==> Covered(q, init))
  }

  lemma SearchStart(strategy: Strategy, init: State)
    ensures SearchInvariant(strategy, init, [Root(init)], [[Root(init)]], [])
  {
    forall n | Reached(n, init) && IsGoal(n.state) ensures exists a :: a in [Root(init)] && Ancestor(a, n) {
      RootAncestor(n, init);
    }
  }

  /** One iteration of the loop on a non-goal node keeps the invariant. */
  lemma SearchStep(strategy: Strategy, init: State, q: seq<Node>, fs: seq<seq<Node>>, ps: seq<Node>, n: Node)
    requires NonEmptyBottles(init) && SearchInvariant(strategy, init, q, fs, ps)
    requires q != [] && Selected(strategy, q, n, Rest(strategy, q)) && !IsGoal(n.state)
    ensures SearchInvariant(strategy, init, Rest(strategy, q) + Children(n), fs + [Rest(strategy, q) + Children(n)], ps + [n])
  {
    var next := Rest(strategy, q) + Children(n);
    SelectStep(strategy, q, n, Rest(strategy, q), init);
    FrontierGrows(Rest(strategy, q), n, init);
    if Removes(strategy) {
      CoveredStep(strategy, q, n, Rest(strategy, q), init);
    } else {
      assert next[0] == q[0];
    }
    RunExtend(strategy, init, fs, ps, n, next);
  }

  lemma RunStep(strategy: Strategy, init: State, fs: seq<seq<Node>>, ps: seq<Node>, t: nat)
    requires Run(strategy, init, fs, ps) && t < |ps|
    ensures Step(strategy, fs[t], ps[t], fs[t + 1])
  {
  }

  /** Breadth-first or depth-first from a non-goal root without successors:
      the first iteration empties the frontier, and there is no second. */
  lemma {:induction false} DeadEndRun(strategy: Strategy, init: State, fs: seq<seq<Node>>, ps: seq<Node>)
    requires Removes(strategy) && Run(strategy, init, fs, ps)
    requires !IsGoal(init) && Children(Root(init)) == []
    ensures |ps| <= 1
    ensures |ps| == 1 ==> fs[1] == []
  {
    if |ps| > 0 {
      assert Step(strategy, fs[0], ps[0], fs[1]);
      assert ps[0] == Root(init);
      assert Rest(strategy, fs[0]) == [];
      assert fs[1] == [];
      if |ps| > 1 {
        RunStep(strategy, init, fs, ps, 1);
        assert false;
      }
    }
  }

  /** What a search outcome means for that dead end: with fuel for at least
      one iteration, breadth-first and depth-first report an empty frontier. */
  lemma DeadEndExhausted(strategy: Strategy, init: State, fs: seq<seq<Node>>, ps: seq<Node>, result: Outcome, fuel: nat)
    requires Removes(strategy) && Run(strategy, init, fs, ps)
    requires !IsGoal(init) && Children(Root(init)) == [] && fuel > 0
    requires result.Solution? ==> |ps| < fuel && Selected(strategy, fs[|ps|], result.node, Rest(strategy, fs[|ps|])) && IsGoal(result.node.state)
    requires result.Unfinished? ==> |ps| == fuel && fs[|ps|] != []
    ensures result.Exhausted?
  {
    DeadEndRun(strategy, init, fs, ps);
  }

  // ---------------------------------------------------------------------------
  // The problem and the search loop
  // ---------------------------------------------------------------------------

  /** How a search run ends: a goal node, an empty frontier, or still running
      when the fuel ran out. */
  datatype Outcome = Solution(node: Node) | Exhausted | Unfinished

  /** Clones the array of bottles, pours on the clone and reads the new state
      back; the bottles passed in stay as they were. */
  method PourOnClone(bottles: State, i: nat, j: nat) returns (newState: State)
    requires i < |bottles| && j < |bottles| && |bottles[i]| > 0
    ensures newState == PourState(bottles, i, j)
  {
    var newBottles := new Bottle[|bottles|](k requires 0 <= k < |bottles| => bottles[k]);
    assert newBottles[..] == bottles;
    Pour(newBottles, i, j);
    newState := newBottles[..];
  }

  class WaterSortSearch {
    const initialState: State
    var nodesExpanded: nat

    constructor (initialState: State)
      ensures this.initialState == initialState && nodesExpanded == 0
    {
      this.initialState := initialState;
      nodesExpanded := 0;
    }

    /** Tries every ordered pair of distinct bottles, i outer and j inner; each
        allowed pour is applied to a copy of the bottles and becomes a
        successor. The node itself is a value and stays as it was. */
    method Expand(node: Node) returns (successors: seq<Node>)
      requires NonEmptyBottles(node.state)
      modifies this`nodesExpanded
      ensures successors == Children(node)
      ensures nodesExpanded == old(nodesExpanded) + 1
    {
      successors := [];
      var bottles := node.state;
      var i := 0;
      while i < |bottles|
        invariant 0 <= i <= |bottles|
        invariant successors == ChildGrid(node, i)
        invariant nodesExpanded == old(nodesExpanded)
      {
        var j := 0;
        while j < |bottles|
          invariant 0 <= j <= |bottles|
          invariant successors == ChildGrid(node, i) + ChildRow(node, i, j)
          invariant nodesExpanded == old(nodesExpanded)
        {
          if i != j {
            if CanPour(bottles[i], bottles[j]) {
              var newState := PourOnClone(bottles, i, j);
              var newNode := NewNode(newState, Some(node), Some(PourLabel(i, j)), node.pathCost + 1, node.depth + 1);
              assert newNode == Child(node, i, j);
              successors := successors + [newNode];
            }
          }
          j := j + 1;
        }
        i := i + 1;
      }
      nodesExpanded := nodesExpanded + 1;
    }

    /** The search loop: starting from the root alone, select a node with the
        strategy's queuing function, return it if it is a goal, otherwise
        append its successors to the frontier. The loop stops after `fuel`
        expansions; `left` is the frontier when it stopped. */
    method GeneralSearch(strategy: Strategy, fuel: nat)
      returns (result: Outcome, ghost left: seq<Node>, ghost fs: seq<seq<Node>>, ghost ps: seq<Node>)
      requires NonEmptyBottles(initialState)
      modifies this`nodesExpanded
      ensures Run(strategy, initialState, fs, ps) && left == fs[|ps|]
      ensures nodesExpanded == old(nodesExpanded) + |ps| && |ps| <= fuel
      ensures result.Solution? ==> |ps| < fuel && Selected(strategy, left, result.node, Rest(strategy, left))
      ensures result.Solution? ==> IsGoal(result.node.state) && Reached(result.node, initialState)
      ensures result.Exhausted? ==> left == [] && Removes(strategy)
      ensures result.Exhausted? ==> forall n :: Reached(n, initialState) ==> !IsGoal(n.state)
      ensures !Removes(strategy) && !result.Solution? ==> left != [] && left[0] == Root(initialState)
      ensures result.Unfinished? ==> left != [] && |ps| == fuel
      ensures nodesExpanded <= old(nodesExpanded) + fuel
      ensures IsGoal(initialState) && fuel > 0 ==>
        result == Solution(Root(initialState)) && nodesExpanded == old(nodesExpanded)
      ensures (strategy.UC? || strategy.AS?) && !IsGoal(initialState) ==>
        result.Unfinished? && nodesExpanded == old(nodesExpanded) + fuel
    {
      var root := NewNode(initialState, None, None, 0, 0);
      var nodes := new Frontier();
      nodes.Add(root);
      var steps := 0;
      fs, ps := [nodes.nodes], [];
      SearchStart(strategy, initialState);
      while steps < fuel && nodes.nodes != []
        invariant steps <= fuel
        invariant nodesExpanded == old(nodesExpanded) + steps
        invariant |ps| == steps && SearchInvariant(strategy, initialState, nodes.nodes, fs, ps)
        invariant IsGoal(initialState) ==> steps == 0
        decreases fuel - steps
      {
        ghost var before := nodes.nodes;
        var node := Select(strategy, nodes);
        SelectedRest(strategy, before, node, nodes.nodes);
        SelectStep(strategy, before, node, nodes.nodes, initialState);
        var goal := GoalTest(node.state);
        if goal {
          return Solution(node), before, fs, ps;
        }
        var successors := Expand(node);
        SearchStep(strategy, initialState, before, fs, ps, node);
        nodes.AddAll(successors);
        fs, ps := fs + [nodes.nodes], ps + [node];
        steps := steps + 1;
      }
      left := nodes.nodes;
      if nodes.nodes == [] {
        result := Exhausted;
      } else {
        result := Unfinished;
      }
    }
  }

  // ---------------------------------------------------------------------------
  // solve
  // ---------------------------------------------------------------------------

  /** The strategy a code selects; AS2 falls back to the A* of AS1. */
  function ParseStrategy(code: string): (s: Option<Strategy>)
    ensures s.None? <==> code !in {"BF", "DF", "UC", "GR1", "AS1", "AS2"}
    ensures code == "AS1" || code == "AS2" ==> s == Some(AS)
    ensures s.Some? && Removes(s.value) <==> code == "BF" || code == "DF"
    ensures code == "BF" ==> s == Some(BF)
    ensures code == "DF" ==> s == Some(DF)
    ensures code == "UC" ==> s == Some(UC)
    ensures code == "GR1" ==> s == Some(GR)
  {
    if code == "BF" then Some(BF)
    else if code == "DF" then Some(DF)
    else if code == "UC" then Some(UC)
    else if code == "GR1" then Some(GR)
    else if code == "AS1" then Some(AS)
    else if code == "AS2" then Some(AS)
    else None
  }

  /** The result of solve: the plan with its path cost and the number of
      expanded nodes, NOSOLUTION, "Invalid strategy", or still searching when
      the fuel ran out. */
  datatype SolveResult =
    | Plan(plan: string, pathCost: int, nodesExpanded: nat)
    | NoSolution
    | InvalidStrategy
    | OutOfFuel

  /** The report solve makes of a search outcome: a found node gives its plan,
      its path cost and the number of expanded nodes, no node gives NOSOLUTION. */
  method Report(result: Outcome, nodesExpanded: nat) returns (r: SolveResult)
    ensures r.Plan? <==> result.Solution?
    ensures r == NoSolution <==> result.Exhausted?
    ensures r == OutOfFuel <==> result.Unfinished?
    ensures result.Solution? ==>
      r == Plan(JoinComma(Actions(result.node)), result.node.pathCost, nodesExpanded)
  {
    match result {
      case Solution(node) =>
        var plan := GetSolutionPath(node);
        r := Plan(plan, node.pathCost, nodesExpanded);
      case Exhausted =>
        r := NoSolution;
      case Unfinished =>
        r := OutOfFuel;
    }
  }

  /** Dispatches on the strategy code: an unknown code is refused without
      searching, any other runs the search under the strategy it selects. */
  method Solve(initialState: State, strategy: string, fuel: nat)
    returns (r: SolveResult, ghost solution: Option<Node>, ghost fs: seq<seq<Node>>, ghost ps: seq<Node>)
    requires ParseStrategy(strategy).Some? ==> NonEmptyBottles(initialState)
    ensures r.InvalidStrategy? <==> ParseStrategy(strategy).None?
    ensures r.Plan? ==>
      && solution.Some? && IsGoal(solution.value.state) && Reached(solution.value, initialState)
      && r.plan == JoinComma(Actions(solution.value))
      && r.pathCost == solution.value.pathCost == |Actions(solution.value)|
    ensures r.NoSolution? ==> strategy == "BF" || strategy == "DF"
    ensures r.NoSolution? ==> forall n :: Reached(n, initialState) ==> !IsGoal(n.state)
    ensures r.Plan? ==> r.nodesExpanded <= fuel
    ensures strategy in {"UC", "AS1", "AS2"} && !IsGoal(initialState) ==> r == OutOfFuel
    ensures ParseStrategy(strategy).Some? && IsGoal(initialState) && fuel > 0 ==> r == Plan("", 0, 0)
    ensures ParseStrategy(strategy).Some? ==>
      var st := ParseStrategy(strategy).value;
      && Run(st, initialState, fs, ps) && |ps| <= fuel
      && (r.OutOfFuel? ==> |ps| == fuel && fs[|ps|] != [])
      && (r.NoSolution? ==> fs[|ps|] == [])
      && (r.Plan? ==> r.nodesExpanded == |ps| < fuel && Selected(st, fs[|ps|], solution.value, Rest(st, fs[|ps|])))
    ensures (strategy == "BF" || strategy == "DF") && !IsGoal(initialState) && Children(Root(initialState)) == [] && fuel > 0 ==>
      r == NoSolution
  {
    var s := ParseStrategy(strategy);
    if s.None? {
      return InvalidStrategy, None, [[]], [];
    }
    var st := s.value;
    var problem := new WaterSortSearch(initialState);
    var result;
    ghost var left;
    result, left, fs, ps := problem.GeneralSearch(st, fuel);
    if Removes(st) && !IsGoal(initialState) && Children(Root(initialState)) == [] && fuel > 0 {
      DeadEndExhausted(st, initialState, fs, ps, result, fuel);
    }
    r := Report(result, problem.nodesExpanded);
    solution := if result.Solution? then Some(result.node) else None;
    if result.Solution? {
      ReachedCosts(result.node, initialState);
    }
  }
}
