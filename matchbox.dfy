/**
 * A MENACE matchbox: one weight ("beats") per cell of the board. A move is
 * drawn with probability proportional to the weights, rewards and
 * punishments adjust one weight at a time, never below zero, and a box
 * with no positive weight is dead.
 */
module Matchboxes {

  /** Sum of the first `n` weights. */
  function Prefix(w: seq<int>, n: nat): int
    requires n <= |w|
  {
    if n == 0 then 0 else Prefix(w, n - 1) + w[n - 1]
  }

  function Total(w: seq<int>): int
  {
    Prefix(w, |w|)
  }

  ghost predicate NonNegative(w: seq<int>)
  {
    forall i :: 0 <= i < |w| ==> w[i] >= 0
  }

  /** No weight is positive. */
  predicate NoBeats(w: seq<int>)
  {
    forall i :: 0 <= i < |w| ==> w[i] <= 0
  }

  /**
   * Index `i` is where a walk over the weights in index order stops for the
   * draw `r`: the first index whose running sum reaches `r`.
   */
  ghost predicate Selects(w: seq<int>, r: int, i: nat)
  {
    i < |w| && Prefix(w, i) < r <= Prefix(w, i + 1) &&
    forall j :: 0 < j <= i ==> Prefix(w, j) < r
  }

  /** The weights after adding `b` beats to slot `m`, clamped at zero. */
  function AddAt(w: seq<int>, m: nat, b: int): seq<int>
    requires m < |w|
  {
    w[m := if w[m] + b < 0 then 0 else w[m] + b]
  }

  /** The weights of a new box: `init` beats added to the slot of each listed move, in order. */
  function Fill(moves: seq<int>, init: int): (w: seq<int>)
    requires forall k :: 0 <= k < |moves| ==> 0 <= moves[k] < 9
    ensures |w| == 9
  {
    if moves == [] then [0, 0, 0, 0, 0, 0, 0, 0, 0]
    else
      var w := Fill(moves[..|moves| - 1], init);
      var m := moves[|moves| - 1];
      w[m := w[m] + init]
  }

  /** A new box holds `init` beats for every time a slot is listed. */
  lemma {:induction false} FillCounts(moves: seq<int>, init: int, i: nat)
    requires forall k :: 0 <= k < |moves| ==> 0 <= moves[k] < 9
    requires i < 9
    ensures Fill(moves, init)[i] == multiset(moves)[i] * init
    decreases |moves|
  {
    if moves == [] {
      assert multiset(moves)[i] == 0;
    } else {
      var front, m := moves[..|moves| - 1], moves[|moves| - 1];
      FillCounts(front, init, i);
      assert moves == front + [m];
      var c := multiset(front)[i];
      var w := Fill(front, init);
      assert Fill(moves, init) == w[m := w[m] + init];
      if m == i {
        assert multiset(moves)[i] == c + 1;
        MulSucc(c, init);
      } else {
        assert multiset(moves)[i] == c;
      }
    }
  }

  lemma MulSucc(c: int, x: int)
    ensures (c + 1) * x == c * x + x
  {
  }

  /** The outcome of a draw: a cell index, or no move because no weight is left. */
  datatype Draw = Picked(index: nat) | NoMove

  class Matchbox {
    /** The nine weights, one per cell. */
    const beats: array<int>

    /** Every listed move gets `initBeats` beats (a move listed twice gets them twice). */
    constructor (moves: seq<int>, initBeats: int)
      requires forall k :: 0 <= k < |moves| ==> 0 <= moves[k] < 9
      ensures fresh(beats) && beats.Length == 9
      ensures beats[..] == Fill(moves, initBeats)
    {
      var a := new int[9](_ => 0);
      var k := 0;
      assert a[..] == Fill([], initBeats);
      while k < |moves|
        invariant 0 <= k <= |moves|
        invariant a[..] == Fill(moves[..k], initBeats)
      {
        assert moves[..k + 1][..k] == moves[..k];
        a[moves[k]] := a[moves[k]] + initBeats;
        k := k + 1;
      }
      assert moves[..k] == moves;
      beats := a;
    }

    /**
     * Draw a move. The random number generator is the parameter `seed`: the
     * draw is `1 + seed % total`, one of 1..total, where the source asks for
     * a uniform integer below the total. Fails when the weights sum to zero
     * or less.
     */
    method Move(seed: nat) returns (d: Draw)
      requires beats.Length == 9
      ensures d.NoMove? <==> Total(beats[..]) <= 0
      ensures d.Picked? ==>
        Total(beats[..]) > 0 && Selects(beats[..], 1 + seed % Total(beats[..]), d.index) && beats[d.index] > 0
    {
      d := NoMove;
      var total := 0;
      var k := 0;
      while k < beats.Length
        invariant 0 <= k <= beats.Length
        invariant total == Prefix(beats[..], k)
      {
        total := total + beats[k];
        k := k + 1;
      }
      if total > 0 {
        ghost var r := 1 + seed % total;
        var rand := 1 + seed % total;
        var i := 0;
        while i < beats.Length
          invariant 0 <= i <= beats.Length
          invariant rand == r - Prefix(beats[..], i)
          invariant 0 < r <= total && forall j :: 0 < j <= i ==> Prefix(beats[..], j) < r
        {
          if rand <= beats[i] {
            return Picked(i);
          }
          rand := rand - beats[i];
          i := i + 1;
        }
      }
    }

    /** Add `b` beats (negative: remove) to slot `move`, never going below zero. */
    method Add(move: int, b: int)
      requires beats.Length == 9 && 0 <= move < 9
      modifies beats
      ensures beats[..] == AddAt(old(beats[..]), move, b)
    {
      if beats[move] + b < 0 {
        beats[move] := 0;
      } else {
        beats[move] := beats[move] + b;
      }
    }

    /** The box is dead when no weight is positive. */
    method Dead() returns (dead: bool)
      ensures dead <==> NoBeats(beats[..])
    {
      var k := 0;
      while k < beats.Length
        invariant 0 <= k <= beats.Length
        invariant forall j :: 0 <= j < k ==> beats[j] <= 0
      {
        if beats[k] > 0 {
          return false;
        }
        k := k + 1;
      }
      return true;
    }
  }

  lemma {:induction false} PrefixMonotone(w: seq<int>, i: nat, j: nat)
    requires NonNegative(w) && i <= j <= |w|
    ensures Prefix(w, i) <= Prefix(w, j)
    decreases j
  {
    if i < j {
      PrefixMonotone(w, i, j - 1);
    }
  }

  /** With non-negative weights the draw determines the index. */
  lemma DrawUnique(w: seq<int>, r: int, i: nat, j: nat)
    requires NonNegative(w)
    requires i < |w| && Prefix(w, i) < r <= Prefix(w, i + 1)
    requires j < |w| && Prefix(w, j) < r <= Prefix(w, j + 1)
    ensures i == j
  {
    if i < j {
      PrefixMonotone(w, i + 1, j);
    } else if j < i {
      PrefixMonotone(w, j + 1, i);
    }
  }

  /** With non-negative weights a walk stops wherever the running sums bracket the draw. */
  lemma BracketSelects(w: seq<int>, r: int, i: nat)
    requires NonNegative(w)
    requires i < |w| && Prefix(w, i) < r <= Prefix(w, i + 1)
    ensures Selects(w, r, i)
  {
    forall j | 0 < j <= i
      ensures Prefix(w, j) < r
    {
      PrefixMonotone(w, j, i);
    }
  }

  /** The integers above `a` up to and including `b`. */
  function Between(a: int, b: int): (s: set<int>)
    ensures forall r :: r in s <==> a < r <= b
    decreases b - a
  {
    if b <= a then {} else Between(a, b - 1) + {b}
  }

  lemma {:induction false} BetweenSize(a: int, b: int)
    requires a <= b
    ensures |Between(a, b)| == b - a
    decreases b - a
  {
    if a < b {
      BetweenSize(a, b - 1);
      assert b !in Between(a, b - 1);
    }
  }

  /**
   * Exactly `w[i]` of the draws 1..Total select index `i`: the chance of a
   * move is its share of the beats.
   */
  lemma DrawsForIndex(w: seq<int>, i: nat)
    requires NonNegative(w) && i < |w|
    ensures |set r | r in Between(0, Total(w)) && Selects(w, r, i)| == w[i]
  {
    PrefixMonotone(w, 0, i);
    PrefixMonotone(w, i + 1, |w|);
    var draws := set r | r in Between(0, Total(w)) && Selects(w, r, i);
    forall r | r in Between(Prefix(w, i), Prefix(w, i + 1))
      ensures r in draws
    {
      BracketSelects(w, r, i);
    }
    assert draws == Between(Prefix(w, i), Prefix(w, i + 1));
    BetweenSize(Prefix(w, i), Prefix(w, i + 1));
  }

  lemma {:induction false} PrefixZero(w: seq<int>, n: nat)
    requires NonNegative(w) && n <= |w|
    ensures Prefix(w, n) == 0 <==> forall i :: 0 <= i < n ==> w[i] == 0
  {
    if n > 0 {
      PrefixZero(w, n - 1);
      PrefixMonotone(w, 0, n - 1);
    }
  }

  /**
   * For non-negative weights: dead (no positive weight), a total of zero and
   * a draw that fails are the same condition.
   */
  lemma DeadIffExhausted(w: seq<int>)
    requires NonNegative(w)
    ensures NoBeats(w) <==> Total(w) == 0
    ensures Total(w) <= 0 <==> Total(w) == 0
  {
    PrefixZero(w, |w|);
    PrefixMonotone(w, 0, |w|);
  }

  /** Adding beats with the clamp keeps every weight non-negative. */
  lemma AddKeepsNonNegative(w: seq<int>, m: nat, b: int)
    requires NonNegative(w) && m < |w|
    ensures NonNegative(AddAt(w, m, b))
    ensures forall i :: 0 <= i < |w| && i != m ==> AddAt(w, m, b)[i] == w[i]
  {
  }
}
