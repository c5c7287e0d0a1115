# Water-sort search, modelled in Dafny

This project models the core of a small search engine for the water-sort
puzzle. It has three parts.

- **The puzzle.** A state is a list of bottles. A bottle is a fixed-length
  string of layers, top first, where `e` marks an empty layer. The model
  covers the goal test ("every layer equals the bottle's top layer or is
  empty"), pour legality, the pour amount, the two string-shifting loops
  that move layers, and the generation of successors in row-major `(i, j)`
  order.
- **Search nodes.** A node records its state, parent, action, path cost,
  depth and heuristic value. The model also covers rebuilding the plan by
  walking the parent chain and joining the actions with `,`.
- **The search loop and the five queuing functions.** BF and DF take their
  node out of the frontier. UC, GR1 and AS1/AS2 copy the frontier into a
  priority queue and poll the copy, so the frontier is never changed.

The files are:

- `Bottles.dfy`: the pour rules.
- `Node.dfy`: the node.
- `QueuingFunctions.dfy`: the frontier class and the selectors.
- `WaterSortSearch.dfy`: `expand`, the inherited `generalSearch` loop and
  `solve`.
- `Wrappers.dfy`: `Option`, which stands for Java's `null`.

Where the code and its own comments disagree, the model follows the code.

- **UC, GR1 and AS1/AS2 never remove a node from the frontier.** The
  frontier therefore never shrinks, and these strategies never report
  `NOSOLUTION`.
  - Under UC, the root is the only node with path cost 0, so it is picked
    again on every iteration.
  - A* behaves the same way. No node ever gets a non-zero heuristic, so its
    total cost equals its path cost.
  - As a result, UC and A* run forever on every initial state that is not
    already a goal (`GeneralSearch`, `Solve`). This includes solvable
    inputs and unsolvable inputs such as `ab;ba`.
  - The comment at `src/QueuingFunctions.java:20` says the node with the
    lowest path cost is removed. It is removed only from the copy.
- **Path cost counts pours.** It grows by 1 per pour
  (`src/WaterSortSearch.java:151`). It does not count the layers poured,
  whatever the comment at line 202 says. `ReachedCosts` proves that path
  cost, depth and the number of plan actions are all equal. The comment
  "total number of layers poured" at `src/WaterSortSearch.java:202` does
  not match this.
- **A legal pour can move nothing.** Pouring onto a full bottle whose top
  matches is legal but moves 0 layers. It yields a successor equal to its
  parent (`PourIntoFullBottle`).

## Model

| member | source | states |
|---|---|---|
| Bottles.GoalTest | src/WaterSortSearch.java:21-39 | returns true exactly when, in every bottle, every layer is the top layer or `e`; the code needs every bottle to be non-empty |
| Bottles.UniformIffOneColour | src/WaterSortSearch.java:26-36 | on a well-formed bottle, the goal test accepts exactly the bottles that hold at most one colour |
| Bottles.IndexOf | src/WaterSortSearch.java:49 | `indexOf`: -1 exactly when the character is absent, otherwise the position of its first occurrence |
| Bottles.CanPour | src/WaterSortSearch.java:47-62 | false when the source's top is `e`; otherwise true exactly when the target's top is `e` or equals the source's top; the target is read only when the source is not empty |
| Bottles.LeadingRun | src/WaterSortSearch.java:100-110 | the length of the longest prefix made only of the colour |
| Bottles.CountEmptySpaces | src/WaterSortSearch.java:89-97 | the loop returns the number of `e` layers in the bottle, wherever they are |
| Bottles.CountSameColorLayers | src/WaterSortSearch.java:100-110 | the loop with its `break` returns the length of the leading run of the colour |
| Bottles.Removed | src/WaterSortSearch.java:113-118 | after removing k layers, layer t is the old layer t+k, or `e` past the end; the length is unchanged |
| Bottles.Added | src/WaterSortSearch.java:121-126 | after adding k layers of c, the first k layers are c and layer t beyond them is the old layer t-k; the length is unchanged |
| Bottles.RemoveLayers | src/WaterSortSearch.java:113-118 | k rounds of "drop the top, append `e`" give `Removed(b, k)`, which is `b[k..]` followed by k `e` when k fits |
| Bottles.AddLayers | src/WaterSortSearch.java:121-126 | k rounds of "prepend the colour, drop the last layer" give `Added(b, c, k)`, which is k layers of c followed by `b[..|b|-k]` when k fits |
| Bottles.PourAmount | src/WaterSortSearch.java:70-75 | the number of layers poured is the minimum of the target's empty layers and the source's leading run of its top colour |
| Bottles.PourState | src/WaterSortSearch.java:65-86 | the pour keeps the number of bottles and every bottle's length, and changes no bottle other than the two named |
| Bottles.Pour | src/WaterSortSearch.java:65-86 | the in-place pour on the array leaves exactly `PourState` of the old contents, and every other entry is unchanged |
| Bottles.PourTransfersLayers | src/WaterSortSearch.java:70-83 | k layers of the top colour move from source to target and k empty layers move back; the two bottles together keep the same multiset of layers |
| Bottles.PourMovesExactly | src/WaterSortSearch.java:70-83 | counts per colour: the source loses exactly k of its top colour and gains k `e`; the target gains k of the colour and loses k `e`; other colours stay put |
| Bottles.PourKeepsWellFormed | src/WaterSortSearch.java:113-126 | a legal pour keeps every bottle non-empty and of equal capacity, with no `;` and no colour below an `e` |
| Bottles.PourIntoFullBottle | src/WaterSortSearch.java:57-79 | for a coloured source, a legal pour moves nothing exactly when the target has no `e`; then the state is unchanged; a full target with a matching top is a legal pour |
| SearchNode.NewNode | src/Node.java:10-17 | the five-argument constructor stores its arguments and sets the heuristic to 0, so the total cost equals the path cost |
| SearchNode.NewNodeWithHeuristic | src/Node.java:20-23 | the six-argument constructor stores all six fields, and its total cost is the path cost plus the heuristic |
| SearchNode.SetHeuristicCost | src/Node.java:51-53 | only the heuristic changes, and the total cost shifts by the same amount |
| SearchNode.TotalCost | src/Node.java:56-58 | the total cost is the path cost when the heuristic is 0, and never less than the path cost when the heuristic is non-negative |
| SearchNode.IsGoalState | src/Node.java:61-63 | true exactly when the node's state equals the given state bottle by bottle |
| SearchNode.GetSolutionPath | src/Node.java:66-76 | the loop up the parent chain returns the actions of the non-root nodes, root side first, joined by single commas; a root gives `""` |
| SearchNode.ActionsCount | src/Node.java:70-73 | the plan has exactly one action per parent link, and the last one is the node's own action |
| SearchNode.TerminatedIsJoinPlusComma | src/Node.java:71-75 | the comma-terminated string built by the loop, minus its last comma, is the comma-joined plan |
| SearchNode.JoinCommaCommas | src/Node.java:71-75 | a plan of comma-free actions has one comma fewer than it has actions |
| QueuingFunctions.BfsQingFunction | src/QueuingFunctions.java:7-9 | returns the head of the frontier and leaves exactly its tail; gives None on an empty frontier |
| QueuingFunctions.DfsQingFunction | src/QueuingFunctions.java:12-14 | returns the last node and leaves exactly the prefix without it |
| QueuingFunctions.PollMin | src/QueuingFunctions.java:18-20 | polling a priority queue filled with the frontier gives a node of the frontier with least key, or None when the frontier is empty |
| QueuingFunctions.UcsQingFunction | src/QueuingFunctions.java:17-21 | returns a frontier node of least path cost and leaves the frontier unchanged |
| QueuingFunctions.GreedyQingFunction1 | src/QueuingFunctions.java:24-28 | returns a frontier node of least heuristic value and leaves the frontier unchanged |
| QueuingFunctions.AStarQingFunction | src/QueuingFunctions.java:31-35 | returns a frontier node of least total cost and leaves the frontier unchanged |
| QueuingFunctions.Select | src/GenericSearch.java:20 | applying the strategy's function to a non-empty frontier meets `Selected`: BF takes the head, DF the last node, UC/GR/AS any minimal node without removing it |
| QueuingFunctions.SelectedFromFrontier | src/QueuingFunctions.java:7-35 | the selected node comes from the frontier; BF/DF remove exactly that one node, and the priority strategies leave the frontier as it was |
| QueuingFunctions.ZeroHeuristicAStarIsUniformCost | src/Node.java:56-58 | with all heuristics 0, the total cost is the path cost, so A* may pick exactly the nodes UC may pick |
| QueuingFunctions.ZeroHeuristicGreedyPicksAny | src/QueuingFunctions.java:24-28 | with all heuristics 0, greedy may pick any frontier node |
| QueuingFunctions.Frontier.AddAll | src/GenericSearch.java:28 | the successors are appended at the end of the frontier, in order |
| WaterSortSearch.NatToStringInjective | src/WaterSortSearch.java:151 | distinct indices get distinct decimal forms |
| WaterSortSearch.PourLabel | src/WaterSortSearch.java:151 | a label starts with `pour_`, followed only by digits and `_` |
| WaterSortSearch.PourLabelInjective | src/WaterSortSearch.java:151 | two pours with the same `pour_i_j` label are the same pour, and a label holds no comma |
| WaterSortSearch.PoursExactly | src/WaterSortSearch.java:138-142 | the pour list holds exactly the ordered pairs `i != j` that `canPour` allows, in strictly increasing row-major order |
| WaterSortSearch.ChildrenExactly | src/WaterSortSearch.java:138-158 | the k-th successor comes from the k-th possible pour; it has the node as parent, action `pour_i_j`, the poured state, path cost + 1, depth + 1 and heuristic 0; every possible pour yields a successor |
| WaterSortSearch.PourOnClone | src/WaterSortSearch.java:143-148 | pouring on a clone of the bottles gives `PourState`, and the bottles passed in stay as they were |
| WaterSortSearch.WaterSortSearch.Expand | src/WaterSortSearch.java:130-162 | the nested loops return exactly `Children(node)`, and `nodesExpanded` rises by exactly 1 |
| WaterSortSearch.Root | src/GenericSearch.java:15 | the root has no parent and no action, path cost 0, depth 0, and the initial state |
| WaterSortSearch.CoveredStep | src/GenericSearch.java:18-29 | when BF or DF takes a non-goal node out and appends its successors, every reachable goal still lies below some node of the frontier |
| WaterSortSearch.ReachedCosts | src/GenericSearch.java:15 | on a chain built by the search from the root, path cost, depth, parent links and plan length all agree; the heuristic is 0; only the root has cost 0 |
| WaterSortSearch.ReachedKeepsShape | src/WaterSortSearch.java:143-148 | every state reached from a well-formed initial state is well formed and has the same number of bottles |
| WaterSortSearch.ChildrenReached | src/WaterSortSearch.java:151 | every successor of a reached node is itself reached by one more legal, labelled pour |
| WaterSortSearch.WaterSortSearch.constructor | src/WaterSortSearch.java:15-17 | the problem stores the initial state and starts with 0 expanded nodes |
| WaterSortSearch.WaterSortSearch.GeneralSearch | src/GenericSearch.java:12-33 | the loop's frontiers and expanded nodes form a `Run` from the root alone: each iteration takes the strategy's node, finds it is not a goal, and appends its successors to what is left; `nodesExpanded` rises by one per iteration; a returned node is the one the next iteration selects, and it is a goal reached from the root by legal pours; Exhausted means an empty frontier, only under BF/DF, and only when no node reachable from the root is a goal; Unfinished means the fuel ran out with a non-empty frontier; under UC/GR/AS the root stays at the head of the frontier; a goal root is returned at once; under UC/AS a non-goal root means the loop never ends |
| WaterSortSearch.SearchStep | src/GenericSearch.java:18-29 | one iteration on a non-goal node extends the run and keeps the loop invariant: every frontier node is reached, the root stays at the head under UC/GR/AS, and every reachable goal lies below a frontier node under BF/DF |
| WaterSortSearch.DeadEndExhausted | src/GenericSearch.java:14-32 | under BF/DF, a non-goal root without successors is expanded once, leaves an empty frontier, and the search reports no node (the `ab;ba` case) |
| QueuingFunctions.Rest | src/QueuingFunctions.java:7-35 | the frontier a queuing function leaves: one node shorter under BF/DF, the same under the priority strategies, and made only of frontier nodes |
| WaterSortSearch.ParseStrategy | src/WaterSortSearch.java:173-194 | BF, DF, UC, GR1, AS1 and AS2 select a strategy, AS2 the same A* as AS1; any other code selects none; only BF and DF select a removing strategy |
| WaterSortSearch.Report | src/WaterSortSearch.java:199-213 | a found node gives a plan of its comma-joined actions, its path cost and the expanded-node count; no node gives NOSOLUTION; running out of fuel gives OutOfFuel, and nothing else does |
| WaterSortSearch.Solve | src/WaterSortSearch.java:167-215 | an unknown code gives "Invalid strategy" without searching; any other code runs the search as a `Run` of the strategy it selects; a plan is the comma-joined actions of the goal node that run selects, reached from the start, with a path cost equal to its length and an expanded-node count equal to the run's iterations; NOSOLUTION only under BF/DF, with an empty frontier, and only when no state reachable from the start by legal pours is a goal; BF/DF on a non-goal start without legal pours give NOSOLUTION; UC/AS1/AS2 on a non-goal start never return |

## Left out

- `visualizeSolution` and the `visualize` flag of `solve` (src/WaterSortSearch.java:206-208, 218-229) are left out. They only print to the console.
- The decimal text `plan;pathCost;nodesExpanded` is not built (src/WaterSortSearch.java:211). `SolveResult.Plan` holds its three fields instead.
- `String.split` and `String.join` on `;` are not modelled (src/WaterSortSearch.java:23, 135, 148). A state is a `seq<seq<char>>` of at least one bottle, and split and join are the identity under `WellFormedState`. The empty state string, which splits into one empty bottle on which Java throws, has no counterpart.
- `GenericSearch` as an abstract class is not modelled. Dafny traits are not used, so `generalSearch` is a method of the one problem class. `getInitialState` is its constant `initialState` field.
- The `Function<Queue<Node>, Node>` method references are replaced by the `Strategy` datatype.
- The `LinkedList` downcast in `dfsQingFunction` is left out.
- `PriorityQueue` heap internals are left out. The model allows any minimal node, because Java does not fix which one is polled among equal keys. `PollMin` picks the first minimal node, which is one allowed choice.
- QueuingFunctions.DfsQingFunction: on an empty frontier Java throws `NoSuchElementException`; the model returns None. The search loop never calls it on an empty frontier.
- SearchNode.SetHeuristicCost: Java changes the node in place. Here a node is an immutable value, so sharing of the changed node is not modelled. Nothing in the core calls it.
- SearchNode.ActionText: Java turns a null action on a non-root node into the text `null`. The model does the same, but the search never builds such a node.
- Java's 32-bit `int` is not modelled for path cost, depth, heuristic, total cost and `nodesExpanded`. The model uses unbounded integers, so no overflow is modelled.
- Bottles.RemoveLayers and Bottles.AddLayers take a non-negative count. In Java a negative count simply skips the loop, but `pour` never passes one.
- WaterSortSearch.WaterSortSearch.GeneralSearch: runs at most `fuel` iterations and reports `Unfinished` when they run out. Java's loop is unbounded. "Never ends" is stated as "Unfinished for every fuel".
- Bottles.GoalTest and the other operations require non-empty bottles. Java throws on an empty bottle string, and malformed encodings are not validated.
