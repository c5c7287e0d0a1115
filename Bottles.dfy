/**
 * The water-sort rules of src/WaterSortSearch.java: bottles, the goal test,
 * pour legality and the string-shifting pour itself.
 *
 * A bottle is the string of its layers, top first, with 'e' for an empty
 * layer; a state is the sequence of bottles that the encoded state joins
 * with ';'.
 */
module Bottles {

  /** The layers of one bottle, index 0 being the top. */
  type Bottle = seq<char>

  /** The bottles of one puzzle state, in order. */
  type State = seq<Bottle>

  /** The marker of an empty layer. */
  const Empty: char := 'e'

  /** The character that separates bottles in the encoded state. */
  const Separator: char := ';'

  function Repeat(c: char, k: nat): (r: seq<char>)
    ensures |r| == k
    ensures forall t :: 0 <= t < k ==> r[t] == c
  {
    seq(k, _ => c)
  }

  // ---------------------------------------------------------------------------
  // Well-formedness of states
  // ---------------------------------------------------------------------------

  /** A bottle as the encoding intends it: non-empty, no separator inside, and
      no colour beneath an empty layer (empties sit at the tail). */
  predicate WellFormedBottle(b: Bottle)
  {
    && |b| > 0
    && Separator !in b
    && forall t, u :: 0 <= t < u < |b| && b[t] == Empty ==> b[u] == Empty
  }

  /** There is a bottle, and every bottle has at least one layer (what the
      code needs not to crash: an empty state string splits into one empty
      bottle). */
  predicate NonEmptyBottles(s: State)
  {
    |s| > 0 && forall k :: 0 <= k < |s| ==> |s[k]| > 0
  }

  /** Every bottle well formed, all of the same capacity. */
  predicate WellFormedState(s: State)
  {
    |s| > 0 && forall k :: 0 <= k < |s| ==> WellFormedBottle(s[k]) && |s[k]| == |s[0]|
  }

  // ---------------------------------------------------------------------------
  // Goal test
  // ---------------------------------------------------------------------------

  /** Every layer equals the top layer or is empty. */
  predicate Uniform(b: Bottle)
  {
    forall t :: 0 <= t < |b| ==> b[t] == b[0] || b[t] == Empty
  }

  /** The goal: every bottle is uniform. */
  predicate IsGoal(s: State)
  {
    forall k :: 0 <= k < |s| ==> Uniform(s[k])
  }

  /** The goal test loops over the bottles and over each bottle's layers,
      leaving as soon as a layer is neither the top colour nor empty. */
  method GoalTest(s: State) returns (goal: bool)
    requires NonEmptyBottles(s)
    ensures goal == IsGoal(s)
  {
    var k := 0;
    while k < |s|
      invariant 0 <= k <= |s|
      invariant forall m :: 0 <= m < k ==> Uniform(s[m])
    {
      var layers := s[k];
      var firstColor := layers[0];
      var t := 0;
      while t < |layers|
        invariant 0 <= t <= |layers|
        invariant forall u :: 0 <= u < t ==> layers[u] == firstColor || layers[u] == Empty
      {
        if layers[t] != firstColor && layers[t] != Empty {
          assert !Uniform(s[k]);
          return false;
        }
        t := t + 1;
      }
      k := k + 1;
    }
    return true;
  }

  /** On a well-formed bottle, the goal test accepts exactly the bottles that
      hold at most one colour. */
  lemma UniformIffOneColour(b: Bottle)
    requires WellFormedBottle(b)
    ensures Uniform(b) <==>
      forall t, u :: 0 <= t < |b| && 0 <= u < |b| && b[t] != Empty && b[u] != Empty ==> b[t] == b[u]
  {
  }

  // ---------------------------------------------------------------------------
  // Pour legality
  // ---------------------------------------------------------------------------

  /** The position of the first occurrence of c, or -1 (String.indexOf). */
  function IndexOf(b: Bottle, c: char): (r: int)
    ensures -1 <= r < |b|
    ensures r == -1 <==> c !in b
    ensures r >= 0 ==> b[r] == c && c !in b[..r]
  {
    if |b| == 0 then -1
    else if b[0] == c then 0
    else
      var r := IndexOf(b[1..], c);
      if r == -1 then -1 else r + 1
  }

  /** A pour is refused when the source's top is empty; otherwise it is allowed
      when the target's top is empty or has the source's top colour. The target
      is only looked at when the source is not empty. */
  function CanPour(from: Bottle, to: Bottle): (ok: bool)
    requires |from| > 0
    requires from[0] != Empty ==> |to| > 0
    ensures ok <==> from[0] != Empty && (to[0] == Empty || to[0] == from[0])
  {
    if IndexOf(from, Empty) == 0 then false
    else
      var topFromColor := from[0];
      var topToColor := to[0];
      topToColor == Empty || topFromColor == topToColor
  }

  // ---------------------------------------------------------------------------
  // Counting helpers
  // ---------------------------------------------------------------------------

  /** The length of the longest prefix of b made only of c. */
  function LeadingRun(b: Bottle, c: char): (n: nat)
    ensures n <= |b|
    ensures forall t :: 0 <= t < n ==> b[t] == c
    ensures n < |b| ==> b[n] != c
  {
    if |b| == 0 || b[0] != c then 0 else 1 + LeadingRun(b[1..], c)
  }

  /** Counts the empty layers of a bottle, wherever they are. */
  method CountEmptySpaces(b: Bottle) returns (count: nat)
    ensures count == multiset(b)[Empty]
  {
    count := 0;
    var t := 0;
    while t < |b|
      invariant 0 <= t <= |b|
      invariant count == multiset(b[..t])[Empty]
    {
      assert b[..t + 1] == b[..t] + [b[t]];
      if b[t] == Empty {
        count := count + 1;
      }
      t := t + 1;
    }
    assert b[..|b|] == b;
  }

  /** Counts the layers of `color` at the top of a bottle, stopping at the
      first other layer. */
  method CountSameColorLayers(b: Bottle, color: char) returns (count: nat)
    ensures count == LeadingRun(b, color)
  {
    count := 0;
    var t := 0;
    while t < |b|
      invariant 0 <= t <= |b|
      invariant count == t
      invariant forall u :: 0 <= u < t ==> b[u] == color
    {
      if b[t] == color {
        count := count + 1;
      } else {
        break;
      }
      t := t + 1;
    }
  }

  // ---------------------------------------------------------------------------
  // Shifting layers
  // ---------------------------------------------------------------------------

  /** The bottle after k layers were taken off the top, each one shifting the
      rest up and leaving an empty layer at the bottom. */
  function Removed(b: Bottle, k: nat): (r: Bottle)
    ensures |r| == |b|
    ensures forall t :: 0 <= t < |b| ==> r[t] == if t + k < |b| then b[t + k] else Empty
  {
    if k <= |b| then b[k..] + Repeat(Empty, k) else Repeat(Empty, |b|)
  }

  /** The bottle after k layers of c were put on top, each one shifting the
      rest down and dropping the bottom layer. */
  function Added(b: Bottle, c: char, k: nat): (r: Bottle)
    ensures |r| == |b|
    ensures forall t :: 0 <= t < |b| ==> r[t] == if t < k then c else b[t - k]
  {
    if k <= |b| then Repeat(c, k) + b[..|b| - k] else Repeat(c, |b|)
  }

  /** One removal step turns Removed(b, i) into Removed(b, i + 1). */
  lemma RemovedStep(b: Bottle, i: nat)
    requires |b| > 0
    ensures Removed(b, i)[1..] + [Empty] == Removed(b, i + 1)
  {
  }

  /** One addition step turns Added(b, c, i) into Added(b, c, i + 1). */
  lemma AddedStep(b: Bottle, c: char, i: nat)
    requires |b| > 0
    ensures [c] + Added(b, c, i)[..|b| - 1] == Added(b, c, i + 1)
  {
  }

  /** Takes k layers off the top of a bottle, one at a time. */
  method RemoveLayers(b: Bottle, layersToRemove: nat) returns (r: Bottle)
    requires layersToRemove > 0 ==> |b| > 0
    ensures r == Removed(b, layersToRemove)
  {
    r := b;
    assert r == Removed(b, 0);
    var i := 0;
    while i < layersToRemove
      invariant 0 <= i <= layersToRemove
      invariant r == Removed(b, i)
    {
      RemovedStep(b, i);
      r := r[1..] + [Empty];
      i := i + 1;
    }
  }

  /** Puts k layers of a colour on top of a bottle, one at a time. */
  method AddLayers(b: Bottle, color: char, layersToAdd: nat) returns (r: Bottle)
    requires layersToAdd > 0 ==> |b| > 0
    ensures r == Added(b, color, layersToAdd)
  {
    r := b;
    assert r == Added(b, color, 0);
    var i := 0;
    while i < layersToAdd
      invariant 0 <= i <= layersToAdd
      invariant r == Added(b, color, i)
    {
      AddedStep(b, color, i);
      r := [color] + r[..|r| - 1];
      i := i + 1;
    }
  }

  // ---------------------------------------------------------------------------
  // The pour
  // ---------------------------------------------------------------------------

  /** How many layers a pour moves: the smaller of the target's empty layers
      and the source's top run of its top colour. */
  function PourAmount(from: Bottle, to: Bottle): (k: nat)
    requires |from| > 0
    ensures k <= multiset(to)[Empty] && k <= LeadingRun(from, from[0])
    ensures k == multiset(to)[Empty] || k == LeadingRun(from, from[0])
  {
    var emptySpacesInTo := multiset(to)[Empty];
    var sameColorLayersInFrom := LeadingRun(from, from[0]);
    if emptySpacesInTo <= sameColorLayersInFrom then emptySpacesInTo else sameColorLayersInFrom
  }

  /** The state after pouring bottle i into bottle j (j written last). */
  function PourState(s: State, i: nat, j: nat): (r: State)
    requires i < |s| && j < |s| && |s[i]| > 0
    ensures |r| == |s|
    ensures forall t :: 0 <= t < |s| ==> |r[t]| == |s[t]|
    ensures forall t :: 0 <= t < |s| && t != i && t != j ==> r[t] == s[t]
  {
    var k := PourAmount(s[i], s[j]);
    s[i := Removed(s[i], k)][j := Added(s[j], s[i][0], k)]
  }

  /** Pours in place on the array of bottles, as the code does on the cloned
      array: only the two named entries are written. */
  method Pour(bottles: array<Bottle>, fromIndex: nat, toIndex: nat)
    requires fromIndex < bottles.Length && toIndex < bottles.Length
    requires |bottles[fromIndex]| > 0
    modifies bottles
    ensures bottles[..] == PourState(old(bottles[..]), fromIndex, toIndex)
    ensures forall t :: 0 <= t < bottles.Length && t != fromIndex && t != toIndex ==> bottles[t] == old(bottles[t])
  {
    var fromBottle := bottles[fromIndex];
    var toBottle := bottles[toIndex];
    var topFromColor := fromBottle[0];
    var emptySpacesInTo := CountEmptySpaces(toBottle);
    var sameColorLayersInFrom := CountSameColorLayers(fromBottle, topFromColor);
    var layersToPour := if emptySpacesInTo <= sameColorLayersInFrom then emptySpacesInTo else sameColorLayersInFrom;
    assert layersToPour == PourAmount(fromBottle, toBottle);
    assert layersToPour > 0 ==> |toBottle| > 0;
    fromBottle := RemoveLayers(fromBottle, layersToPour);
    toBottle := AddLayers(toBottle, topFromColor, layersToPour);
    bottles[fromIndex] := fromBottle;
    bottles[toIndex] := toBottle;
  }

  // ---------------------------------------------------------------------------
  // What a pour does
  // ---------------------------------------------------------------------------

  lemma {:induction false} RepeatCount(c: char, k: nat)
    ensures multiset(Repeat(c, k))[c] == k
  {
    if k > 0 {
      RepeatCount(c, k - 1);
      assert Repeat(c, k) == Repeat(c, k - 1) + [c];
    }
  }

  /** A well-formed bottle is its coloured layers followed by all its empty
      layers. */
  lemma EmptyTail(b: Bottle)
    requires WellFormedBottle(b)
    ensures multiset(b)[Empty] <= |b|
    ensures b[|b| - multiset(b)[Empty]..] == Repeat(Empty, multiset(b)[Empty])
    ensures Empty !in b[..|b| - multiset(b)[Empty]]
  {
    var p := IndexOf(b, Empty);
    if p == -1 {
      SplitAtFirstEmpty(b, |b|);
    } else {
      assert forall t :: p <= t < |b| ==> b[t] == Empty;
      SplitAtFirstEmpty(b, p);
    }
  }

  /** A bottle with no empty layer before p and only empty layers from p on
      has |b| - p empty layers. */
  lemma SplitAtFirstEmpty(b: Bottle, p: nat)
    requires p <= |b| && Empty !in b[..p]
    requires forall t :: p <= t < |b| ==> b[t] == Empty
    ensures multiset(b)[Empty] == |b| - p
    ensures b[p..] == Repeat(Empty, |b| - p)
  {
    var head, tail := b[..p], b[p..];
    assert Empty !in multiset(head);
    assert tail == Repeat(Empty, |b| - p);
    RepeatCount(Empty, |b| - p);
    assert b == head + tail;
    assert multiset(b) == multiset(head) + multiset(tail);
  }

  /** A pour of k layers of colour c from bottle i into bottle j takes k layers
      of c out of i and puts k empty layers in their place, and takes k empty
      layers out of j and puts k layers of c in their place. Only the target
      needs to be well formed: its empty layers must be at its bottom. */
  lemma {:induction false} PourTransfersLayers(s: State, i: nat, j: nat)
    requires i < |s| && j < |s| && i != j && |s[i]| > 0
    requires WellFormedBottle(s[j])
    ensures var k, c, r := PourAmount(s[i], s[j]), s[i][0], PourState(s, i, j);
      && multiset(r[i]) + multiset(Repeat(c, k)) == multiset(s[i]) + multiset(Repeat(Empty, k))
      && multiset(r[j]) + multiset(Repeat(Empty, k)) == multiset(s[j]) + multiset(Repeat(c, k))
      && multiset(r[i]) + multiset(r[j]) == multiset(s[i]) + multiset(s[j])
  {
    var k, c, r := PourAmount(s[i], s[j]), s[i][0], PourState(s, i, j);
    assert r[i] == Removed(s[i], k) && r[j] == Added(s[j], c, k);
    RemovedMultiset(s[i], k);
    AddedMultiset(s[j], c, k);
    var mi, mj, mc, me := multiset(r[i]), multiset(r[j]), multiset(Repeat(c, k)), multiset(Repeat(Empty, k));
    assert mi + mc == multiset(s[i]) + me;
    assert mj + me == multiset(s[j]) + mc;
    forall x ensures (mi + mj)[x] == (multiset(s[i]) + multiset(s[j]))[x] {
      assert (mi + mc)[x] == (multiset(s[i]) + me)[x];
      assert (mj + me)[x] == (multiset(s[j]) + mc)[x];
    }
  }

  /** Taking k layers of the top colour off the top leaves k empty layers in
      their place. */
  lemma RemovedMultiset(b: Bottle, k: nat)
    requires |b| > 0 && k <= LeadingRun(b, b[0])
    ensures multiset(Removed(b, k)) + multiset(Repeat(b[0], k)) == multiset(b) + multiset(Repeat(Empty, k))
  {
    var top, rest, gap := Repeat(b[0], k), b[k..], Repeat(Empty, k);
    assert b == top + rest;
    assert Removed(b, k) == rest + gap;
    SwapEnds(b, Removed(b, k), top, rest, gap);
  }

  /** Exchanging one end of a sequence for another changes its multiset by
      exactly that exchange. */
  lemma SwapEnds(b: seq<char>, b': seq<char>, x: seq<char>, m: seq<char>, y: seq<char>)
    requires b == x + m && b' == m + y
    ensures multiset(b') + multiset(x) == multiset(b) + multiset(y)
  {
    assert multiset(b) == multiset(x) + multiset(m);
    assert multiset(b') == multiset(m) + multiset(y);
  }

  /** Putting k layers of c on a well-formed bottle with at least k empty
      layers pushes out k empty layers at the bottom. */
  lemma AddedMultiset(b: Bottle, c: char, k: nat)
    requires WellFormedBottle(b) && k <= multiset(b)[Empty]
    ensures multiset(Added(b, c, k)) + multiset(Repeat(Empty, k)) == multiset(b) + multiset(Repeat(c, k))
  {
    EmptyTail(b);
    var e := multiset(b)[Empty];
    assert b[|b| - k..] == b[|b| - e..][e - k..];
    assert b == b[..|b| - k] + Repeat(Empty, k);
    assert Added(b, c, k) == Repeat(c, k) + b[..|b| - k];
  }

  /** The exact counts moved by a pour of a coloured top: k layers of the
      colour leave the source and reach the target, and k empty layers go the
      other way; every other colour stays where it was. */
  lemma PourMovesExactly(s: State, i: nat, j: nat, x: char)
    requires i < |s| && j < |s| && i != j && |s[i]| > 0 && s[i][0] != Empty
    requires WellFormedBottle(s[j])
    ensures var k, c, r := PourAmount(s[i], s[j]), s[i][0], PourState(s, i, j);
      && multiset(r[i])[c] == multiset(s[i])[c] - k
      && multiset(r[j])[c] == multiset(s[j])[c] + k
      && multiset(r[i])[Empty] == multiset(s[i])[Empty] + k
      && multiset(r[j])[Empty] == multiset(s[j])[Empty] - k
      && (x != c && x != Empty ==> multiset(r[i])[x] == multiset(s[i])[x] && multiset(r[j])[x] == multiset(s[j])[x])
  {
    var k, c, r := PourAmount(s[i], s[j]), s[i][0], PourState(s, i, j);
    PourTransfersLayers(s, i, j);
    var mc, me := multiset(Repeat(c, k)), multiset(Repeat(Empty, k));
    assert multiset(r[i]) + mc == multiset(s[i]) + me;
    assert multiset(r[j]) + me == multiset(s[j]) + mc;
    RepeatCount(c, k);
    RepeatCount(Empty, k);
    assert mc[Empty] == 0 && me[c] == 0 by {
      assert Empty !in Repeat(c, k) && c !in Repeat(Empty, k);
    }
    assert (multiset(r[i]) + mc)[c] == (multiset(s[i]) + me)[c];
    assert (multiset(r[j]) + me)[c] == (multiset(s[j]) + mc)[c];
    assert (multiset(r[i]) + mc)[Empty] == (multiset(s[i]) + me)[Empty];
    assert (multiset(r[j]) + me)[Empty] == (multiset(s[j]) + mc)[Empty];
    if x != c && x != Empty {
      assert mc[x] == 0 && me[x] == 0 by {
        assert x !in Repeat(c, k) && x !in Repeat(Empty, k);
      }
      assert (multiset(r[i]) + mc)[x] == (multiset(s[i]) + me)[x];
      assert (multiset(r[j]) + me)[x] == (multiset(s[j]) + mc)[x];
    }
  }

  /** A legal pour keeps every bottle well formed and of the same capacity. */
  lemma PourKeepsWellFormed(s: State, i: nat, j: nat)
    requires WellFormedState(s) && i < |s| && j < |s|
    requires CanPour(s[i], s[j])
    ensures WellFormedState(PourState(s, i, j))
  {
  }

  /** A legal pour from a coloured top moves nothing exactly when the target
      has no empty layer; then the state is unchanged. So a pour onto a full
      bottle with a matching top is allowed and changes nothing. */
  lemma PourIntoFullBottle(s: State, i: nat, j: nat)
    requires i < |s| && j < |s| && |s[i]| > 0 && |s[j]| > 0 && s[i][0] != Empty
    ensures PourAmount(s[i], s[j]) == 0 <==> Empty !in s[j]
    ensures Empty !in s[j] ==> PourState(s, i, j) == s
    ensures Empty !in s[j] && s[j][0] == s[i][0] ==> CanPour(s[i], s[j])
  {
    if Empty !in s[j] {
      assert multiset(s[j])[Empty] == 0;
      assert Removed(s[i], 0) == s[i];
      assert Added(s[j], s[i][0], 0) == s[j];
    } else {
      assert multiset(s[j])[Empty] > 0;
    }
  }
}
