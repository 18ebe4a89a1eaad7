/**
 * The perfect player: full-depth negamax with alpha-beta pruning over the
 * board, which it changes in place (place a mark, search, take it back),
 * and a random choice among the equally best root moves.
 */
module Negamax {
  import opened Boards
  import opened Players

  /** The 32-bit integer range the search window starts from. */
  const IntMin: int := -0x8000_0000
  const IntMax: int := 0x7fff_ffff

  function Max(x: int, y: int): int
  {
    if x < y then y else x
  }

  /**
   * Terminal evaluation for the player with mark `me`: 1 if `me` has won,
   * -1 if the other mark has, 0 when nobody has.
   */
  function Heuristic(b: Board, me: Option<Symbol>): (h: int)
    requires |b| == 9
    ensures -1 <= h <= 1
    ensures h == 1 <==> Winner(b).Some? && Winner(b) == me
    ensures h == -1 <==> Winner(b).Some? && Winner(b) != me
  {
    if Winner(b).Some? then (if Winner(b) == me then 1 else -1) else 0
  }

  /** The mark placed by the side to move: `me` for colour 1, the other mark otherwise. */
  function Mover(color: int, me: Symbol): Symbol
  {
    if color == 1 then me else Opponent(me)
  }

  /**
   * Plain negamax, the reference the pruned search is measured against:
   * the value of `b` for the side of colour `color` to move.
   */
  function Value(b: Board, color: int, me: Symbol): int
    requires |b| == 9 && me != Empty
    decreases EmptyCount(b), 2, 0
  {
    if Terminal(b) then color * Heuristic(b, Some(me))
    else BestScore(b, Moves(b), color, me)
  }

  /** The value of playing the empty cell `m` of `b`, for the side to move. */
  function Score(b: Board, m: nat, color: int, me: Symbol): int
    requires |b| == 9 && me != Empty && m < 9 && b[m] == Empty
    decreases EmptyCount(b), 0, 0
  {
    PlaceShrinks(b, m, Mover(color, me));
    -Value(b[m := Mover(color, me)], -color, me)
  }

  /** The largest score among the moves `ms` (IntMin when there is none). */
  function BestScore(b: Board, ms: seq<nat>, color: int, me: Symbol): int
    requires |b| == 9 && me != Empty && AllEmpty(b, ms)
    decreases EmptyCount(b), 1, |ms|
  {
    if ms == [] then IntMin
    else Max(BestScore(b, ms[..|ms| - 1], color, me), Score(b, ms[|ms| - 1], color, me))
  }

  /** The moves of `ms`, in order, whose score is `target`. */
  function Ties(b: Board, ms: seq<nat>, target: int, me: Symbol): seq<nat>
    requires |b| == 9 && me != Empty && AllEmpty(b, ms)
  {
    if ms == [] then []
    else
      Ties(b, ms[..|ms| - 1], target, me) +
      (if Score(b, ms[|ms| - 1], 1, me) == target then [ms[|ms| - 1]] else [])
  }

  /** The root moves of `me` that reach the best score, in enumeration order. */
  function BestMoves(b: Board, me: Symbol): seq<nat>
    requires |b| == 9 && me != Empty
  {
    Ties(b, Moves(b), BestScore(b, Moves(b), 1, me), me)
  }

  /**
   * What a search with window (alpha, beta) may return in place of the exact
   * value: an upper bound when it fails low, the value itself inside the
   * window, a lower bound when it fails high.
   */
  predicate FailSoft(v: int, alpha: int, beta: int, exact: int)
  {
    (v <= alpha ==> exact <= v) &&
    (alpha < v < beta ==> exact == v) &&
    (beta <= v ==> v <= exact)
  }

  lemma {:induction false} ValueRange(b: Board, color: int, me: Symbol)
    requires |b| == 9 && me != Empty && (color == 1 || color == -1)
    ensures -1 <= Value(b, color, me) <= 1
    decreases EmptyCount(b), 2, 0
  {
    if !Terminal(b) {
      NotFullHasMove(b);
      BestScoreRange(b, Moves(b), color, me);
    }
  }

  lemma {:induction false} BestScoreRange(b: Board, ms: seq<nat>, color: int, me: Symbol)
    requires |b| == 9 && me != Empty && AllEmpty(b, ms) && (color == 1 || color == -1)
    requires ms != []
    ensures -1 <= BestScore(b, ms, color, me) <= 1
    decreases EmptyCount(b), 1, |ms|
  {
    var m := ms[|ms| - 1];
    PlaceShrinks(b, m, Mover(color, me));
    ValueRange(b[m := Mover(color, me)], -color, me);
    if |ms| > 1 {
      BestScoreRange(b, ms[..|ms| - 1], color, me);
    }
  }

  /** Every score among `ms` is at most the best one. */
  lemma {:induction false} BestScoreIsUpper(b: Board, ms: seq<nat>, color: int, me: Symbol)
    requires |b| == 9 && me != Empty && AllEmpty(b, ms)
    ensures forall k :: 0 <= k < |ms| ==> Score(b, ms[k], color, me) <= BestScore(b, ms, color, me)
  {
    if ms != [] {
      var init := ms[..|ms| - 1];
      BestScoreIsUpper(b, init, color, me);
      forall k | 0 <= k < |ms|
        ensures Score(b, ms[k], color, me) <= BestScore(b, ms, color, me)
      {
        if k < |init| {
          assert ms[k] == init[k];
        }
      }
    }
  }

  /** Some move of a non-empty `ms` reaches the best score. */
  lemma {:induction false} BestScoreIsReached(b: Board, ms: seq<nat>, color: int, me: Symbol)
    requires |b| == 9 && me != Empty && AllEmpty(b, ms) && (color == 1 || color == -1)
    requires ms != []
    ensures exists k :: 0 <= k < |ms| && Score(b, ms[k], color, me) == BestScore(b, ms, color, me)
  {
    var init, m := ms[..|ms| - 1], ms[|ms| - 1];
    if init != [] && BestScore(b, init, color, me) >= Score(b, m, color, me) {
      BestScoreIsReached(b, init, color, me);
      var k :| 0 <= k < |init| && Score(b, init[k], color, me) == BestScore(b, init, color, me);
      assert ms[k] == init[k];
    } else {
      PlaceShrinks(b, m, Mover(color, me));
      ValueRange(b[m := Mover(color, me)], -color, me);
      assert Score(b, ms[|ms| - 1], color, me) == BestScore(b, ms, color, me);
    }
  }

  /** The best score over a prefix of the moves never exceeds the best over all of them. */
  lemma {:induction false} BestScorePrefix(b: Board, ms: seq<nat>, j: nat, color: int, me: Symbol)
    requires |b| == 9 && me != Empty && AllEmpty(b, ms) && j <= |ms|
    ensures BestScore(b, ms[..j], color, me) <= BestScore(b, ms, color, me)
    decreases |ms|
  {
    if j < |ms| {
      BestScorePrefix(b, ms[..|ms| - 1], j, color, me);
      assert ms[..|ms| - 1][..j] == ms[..j];
    } else {
      assert ms[..j] == ms;
    }
  }

  /** The best score over one more move. */
  lemma BestScoreSnoc(b: Board, ms: seq<nat>, k: nat, color: int, me: Symbol)
    requires |b| == 9 && me != Empty && AllEmpty(b, ms) && k < |ms|
    ensures BestScore(b, ms[..k + 1], color, me) == Max(BestScore(b, ms[..k], color, me), Score(b, ms[k], color, me))
  {
    assert ms[..k + 1][..k] == ms[..k];
  }

  /**
   * One round of the pruned loop keeps its invariant: with `p` the best exact
   * score so far and `s` the exact score of the next move, whose search in
   * the window (a, beta) came back as `v`.
   */
  lemma WindowStep(p: int, value: int, alpha: int, a: int, beta: int, s: int, v: int)
    requires a == Max(alpha, value) && a < beta
    requires p <= value && (value > alpha ==> value <= p)
    requires FailSoft(v, a, beta, s)
    ensures var value' := Max(value, v);
      var p' := Max(p, s);
      if Max(a, value') >= beta then beta <= value' <= p'
      else p' <= value' && (value' > alpha ==> value' <= p')
  {
  }

  lemma {:induction false} TiesMembers(b: Board, ms: seq<nat>, target: int, me: Symbol)
    requires |b| == 9 && me != Empty && AllEmpty(b, ms)
    ensures forall x :: x in Ties(b, ms, target, me) <==> x in ms && Score(b, x, 1, me) == target
  {
    if ms != [] {
      TiesMembers(b, ms[..|ms| - 1], target, me);
      assert ms == ms[..|ms| - 1] + [ms[|ms| - 1]];
    }
  }

  lemma {:induction false} TiesAbove(b: Board, ms: seq<nat>, target: int, me: Symbol)
    requires |b| == 9 && me != Empty && AllEmpty(b, ms)
    requires BestScore(b, ms, 1, me) < target
    ensures Ties(b, ms, target, me) == []
  {
    if ms != [] {
      TiesAbove(b, ms[..|ms| - 1], target, me);
    }
  }

  /**
   * Scanning one more move keeps the running maximum and the moves that
   * reach it: a higher score restarts the ties, an equal one joins them.
   */
  lemma ArgmaxStep(b: Board, ms: seq<nat>, k: nat, me: Symbol, max: int, best: seq<nat>)
    requires |b| == 9 && me != Empty && AllEmpty(b, ms) && k < |ms|
    requires max == BestScore(b, ms[..k], 1, me) && best == Ties(b, ms[..k], max, me)
    ensures var v := Score(b, ms[k], 1, me);
      var max' := if v > max then v else max;
      BestScore(b, ms[..k + 1], 1, me) == max' &&
      Ties(b, ms[..k + 1], max', me) == (if v > max then [ms[k]] else if v == max then best + [ms[k]] else best)
  {
    var v := Score(b, ms[k], 1, me);
    assert ms[..k + 1][..k] == ms[..k];
    if v > max {
      TiesAbove(b, ms[..k], v, me);
    }
  }

  /**
   * The tie set of the root is exactly the set of maximising moves, and it
   * is not empty when the board has an empty cell.
   */
  lemma BestMovesAreArgmax(b: Board, me: Symbol)
    requires |b| == 9 && me != Empty
    ensures forall x :: x in BestMoves(b, me) <==>
      x in Moves(b) && forall y :: y in Moves(b) ==> Score(b, y, 1, me) <= Score(b, x, 1, me)
    ensures !IsFull(b) ==> |BestMoves(b, me)| > 0
  {
    var ms := Moves(b);
    var best := BestScore(b, ms, 1, me);
    TiesMembers(b, ms, best, me);
    BestScoreIsUpper(b, ms, 1, me);
    if !IsFull(b) {
      NotFullHasMove(b);
      BestScoreIsReached(b, ms, 1, me);
      var k :| 0 <= k < |ms| && Score(b, ms[k], 1, me) == best;
      assert ms[k] in BestMoves(b, me);
    }
  }

  class PlayerNegamax {
    /** The part every player has: its mark. */
    const player: Player

    constructor ()
      ensures fresh(player) && player.symbol == None
    {
      player := new Player();
    }

    /**
     * Negamax with alpha-beta pruning on `board`, which is changed during
     * the search and restored before returning. A board on which the game
     * is over is valued by the heuristic, from the side of colour `color`.
     */
    method NegamaxAlphaBeta(board: array<Symbol>, alpha: int, beta: int, color: int) returns (value: int)
      requires board.Length == 9
      requires player.symbol == Some(Cross) || player.symbol == Some(Circle)
      requires color == 1 || color == -1
      requires IntMin < alpha < beta <= IntMax
      modifies board
      ensures board[..] == old(board[..])
      ensures -1 <= value <= 1
      ensures FailSoft(value, alpha, beta, Value(old(board[..]), color, player.symbol.value))
      ensures Terminal(old(board[..])) ==> value == color * Heuristic(old(board[..]), player.symbol)
      decreases EmptyCount(board[..]), 2
    {
      if IsFull(board[..]) || Winner(board[..]).Some? {
        return color * Heuristic(board[..], player.symbol);
      }
      value := SearchMoves(board, alpha, beta, color);
    }

    /**
     * The move loop of the search on a board where the game is not over:
     * every legal move is searched in order, the window narrowing as the
     * best value rises, until it closes.
     */
    method SearchMoves(board: array<Symbol>, alpha: int, beta: int, color: int) returns (value: int)
      requires board.Length == 9 && !Terminal(board[..])
      requires player.symbol == Some(Cross) || player.symbol == Some(Circle)
      requires color == 1 || color == -1
      requires IntMin < alpha < beta <= IntMax
      modifies board
      ensures board[..] == old(board[..])
      ensures -1 <= value <= 1
      ensures FailSoft(value, alpha, beta, BestScore(old(board[..]), Moves(old(board[..])), color, player.symbol.value))
      decreases EmptyCount(board[..]), 1
    {
      ghost var b := board[..];
      ghost var me := player.symbol.value;
      var moves := Moves(board[..]);
      NotFullHasMove(b);
      value := IntMin;
      var a := alpha;
      var k := 0;
      while k < |moves|
        invariant 0 <= k <= |moves|
        invariant board[..] == b
        invariant a == Max(alpha, value) && a < beta
        invariant k == 0 ==> value == IntMin
        invariant k > 0 ==> -1 <= value <= 1
        invariant BestScore(b, moves[..k], color, me) <= value
        invariant value > alpha ==> value <= BestScore(b, moves[..k], color, me)
      {
        ghost var p := BestScore(b, moves[..k], color, me);
        var u := SearchMove(board, moves[k], a, beta, color);
        WindowStep(p, value, alpha, a, beta, Score(b, moves[k], color, me), u);
        BestScoreSnoc(b, moves, k, color, me);
        value := Max(value, u);
        a := Max(a, value);
        if a >= beta {
          BestScorePrefix(b, moves, k + 1, color, me);
          return;
        }
        k := k + 1;
      }
      assert moves[..k] == moves;
    }

    /**
     * Play the empty cell `m` for the side of colour `color`, search the
     * reply with the window negated, and take the mark back: the score of
     * `m` as the pruned search sees it.
     */
    method SearchMove(board: array<Symbol>, m: nat, a: int, beta: int, color: int) returns (u: int)
      requires board.Length == 9 && m < 9 && board[m] == Empty
      requires player.symbol == Some(Cross) || player.symbol == Some(Circle)
      requires color == 1 || color == -1
      requires IntMin < a < beta <= IntMax
      modifies board
      ensures board[..] == old(board[..])
      ensures -1 <= u <= 1
      ensures FailSoft(u, a, beta, Score(old(board[..]), m, color, player.symbol.value))
      decreases EmptyCount(board[..]), 0
    {
      ghost var b := board[..];
      ghost var me := player.symbol.value;
      PlaceShrinks(b, m, Mover(color, me));
      board[m] := if color == 1 then player.symbol.value else Opponent(player.symbol.value);
      assert board[..] == b[m := Mover(color, me)];
      var v := NegamaxAlphaBeta(board, -beta, -a, -color);
      u := -v;
      board[m] := Empty;
      assert board[..] == b;
    }

    /**
     * The move of this player on `board`: one of the best root moves, the
     * one at `pick` modulo their number (the source draws it at random).
     */
    method Move(board: array<Symbol>, pick: nat) returns (move: int)
      requires board.Length == 9 && !IsFull(board[..])
      requires player.symbol == Some(Cross) || player.symbol == Some(Circle)
      modifies board
      ensures board[..] == old(board[..])
      ensures 0 <= move < 9 && old(board[move]) == Empty
      ensures var best := BestMoves(old(board[..]), player.symbol.value);
        |best| > 0 && move == best[pick % |best|]
    {
      ghost var b := board[..];
      var me := player.symbol.value;
      var max := IntMin;
      var bestmoves: seq<nat> := [];
      var moves := Moves(board[..]);
      var k := 0;
      while k < |moves|
        invariant 0 <= k <= |moves|
        invariant board[..] == b
        invariant max == BestScore(b, moves[..k], 1, me)
        invariant bestmoves == Ties(b, moves[..k], max, me)
      {
        var m := moves[k];
        var value := SearchMove(board, m, IntMin + 1, IntMax, 1);
        ArgmaxStep(b, moves, k, me, max, bestmoves);
        if value > max {
          max := value;
          bestmoves := [m];
        } else if value == max {
          bestmoves := bestmoves + [m];
        }
        k := k + 1;
      }
      assert moves[..k] == moves;
      BestMovesAreArgmax(b, me);
      move := bestmoves[pick % |bestmoves|];
      assert move in BestMoves(b, me);
    }

    /** This player does not learn. */
    method Learn(winner: Player?)
      ensures unchanged(this, player)
    {
    }
  }
}
