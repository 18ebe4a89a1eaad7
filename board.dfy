/**
 * The 3x3 board the two agents play on, as far as they consume it: nine
 * cells indexed 0..8 row by row, the list of empty cells ("legal moves"),
 * fullness and the winner. The board and its win test are not part of this
 * model; they are defined here from the usual rules of the game.
 */
module Boards {

  datatype Option<T> = None | Some(value: T)

  /** The content of one cell: the first mover's mark, the second's, or nothing. */
  datatype Symbol = Cross | Circle | Empty

  type Board = seq<Symbol>

  /** A board with nothing on it. */
  function EmptyBoard(): (b: Board)
    ensures |b| == 9 && forall i :: 0 <= i < 9 ==> b[i] == Empty
  {
    [Empty, Empty, Empty, Empty, Empty, Empty, Empty, Empty, Empty]
  }

  /** The mark of the other player (a player with no real mark is treated as Circle). */
  function Opponent(s: Symbol): Symbol
  {
    if s == Cross then Circle else Cross
  }

  /** Number of empty cells: every move fills one, so it measures how far a game can still go. */
  function EmptyCount(b: Board): nat
  {
    multiset(b)[Empty]
  }

  /** The empty cells at index `i` or beyond, in increasing order. */
  function MovesFrom(b: Board, i: nat): (ms: seq<nat>)
    requires i <= |b|
    ensures forall k :: 0 <= k < |ms| ==> i <= ms[k] < |b| && b[ms[k]] == Empty
    decreases |b| - i
  {
    if i == |b| then []
    else if b[i] == Empty then [i] + MovesFrom(b, i + 1)
    else MovesFrom(b, i + 1)
  }

  /** The legal moves: every empty cell, in index order. */
  function Moves(b: Board): (ms: seq<nat>)
    ensures forall k :: 0 <= k < |ms| ==> ms[k] < |b| && b[ms[k]] == Empty
  {
    MovesFrom(b, 0)
  }

  lemma {:induction false} MovesFromComplete(b: Board, i: nat)
    requires i <= |b|
    ensures forall m: nat :: i <= m < |b| && b[m] == Empty ==> m in MovesFrom(b, i)
    ensures forall j, k :: 0 <= j < k < |MovesFrom(b, i)| ==> MovesFrom(b, i)[j] < MovesFrom(b, i)[k]
    decreases |b| - i
  {
    if i < |b| {
      MovesFromComplete(b, i + 1);
    }
  }

  /**
   * Every empty cell is a legal move and the moves come in increasing
   * index order, so each appears once.
   */
  lemma MovesComplete(b: Board)
    ensures forall m: nat :: m < |b| && b[m] == Empty ==> m in Moves(b)
    ensures forall j, k :: 0 <= j < k < |Moves(b)| ==> Moves(b)[j] < Moves(b)[k]
  {
    MovesFromComplete(b, 0);
  }

  /** Each cell occurs in the move list once if it is free and not at all otherwise. */
  lemma {:induction false} MovesFromOnce(b: Board, i: nat, m: nat)
    requires i <= |b|
    ensures multiset(MovesFrom(b, i))[m] == if i <= m < |b| && b[m] == Empty then 1 else 0
    decreases |b| - i
  {
    if i < |b| {
      var rest := MovesFrom(b, i + 1);
      MovesFromOnce(b, i + 1, m);
      if b[i] == Empty {
        assert MovesFrom(b, i) == [i] + rest;
        var c := multiset(MovesFrom(b, i + 1))[m];
        assert multiset(MovesFrom(b, i))[m] == (if m == i then 1 else 0) + c;
      } else {
        assert MovesFrom(b, i) == rest;
      }
    }
  }

  lemma MovesOnce(b: Board, m: nat)
    ensures multiset(Moves(b))[m] == if m < |b| && b[m] == Empty then 1 else 0
  {
    MovesFromOnce(b, 0, m);
  }

  predicate IsFull(b: Board)
  {
    Empty !in b
  }

  /** The eight lines of three cells: rows, columns, diagonals. */
  const Lines: seq<(nat, nat, nat)> :=
    [(0, 1, 2), (3, 4, 5), (6, 7, 8), (0, 3, 6), (1, 4, 7), (2, 5, 8), (0, 4, 8), (2, 4, 6)]

  predicate LineOf(b: Board, k: nat, s: Symbol)
    requires |b| == 9 && k < |Lines|
  {
    s != Empty && b[Lines[k].0] == s && b[Lines[k].1] == s && b[Lines[k].2] == s
  }

  /** The owner of the first complete line among lines k.. */
  function WinnerFrom(b: Board, k: nat): (w: Option<Symbol>)
    requires |b| == 9 && k <= |Lines|
    ensures w.Some? ==> exists j :: k <= j < |Lines| && LineOf(b, j, w.value)
    ensures w.None? ==> forall j, s :: k <= j < |Lines| ==> !LineOf(b, j, s)
    decreases |Lines| - k
  {
    if k == |Lines| then None
    else
      var (x, y, z) := Lines[k];
      if b[x] != Empty && b[x] == b[y] && b[y] == b[z] then
        assert LineOf(b, k, b[x]);
        Some(b[x])
      else WinnerFrom(b, k + 1)
  }

  /** The winner of a board, or None: a mark wins by filling a line. */
  function Winner(b: Board): (w: Option<Symbol>)
    requires |b| == 9
    ensures w.Some? ==> w.value != Empty
  {
    WinnerFrom(b, 0)
  }

  /** There is a winner exactly when some line is filled by one mark, and the winner owns a line. */
  lemma WinnerOwnsLine(b: Board)
    requires |b| == 9
    ensures Winner(b).Some? ==> exists j :: 0 <= j < |Lines| && LineOf(b, j, Winner(b).value)
    ensures Winner(b).None? <==> forall j, s :: 0 <= j < |Lines| ==> !LineOf(b, j, s)
  {
  }

  /** A board on which the game is over. */
  predicate Terminal(b: Board)
    requires |b| == 9
  {
    IsFull(b) || Winner(b).Some?
  }

  /** Placing a mark on an empty cell leaves one empty cell fewer. */
  lemma PlaceShrinks(b: Board, m: nat, s: Symbol)
    requires m < |b| && b[m] == Empty && s != Empty
    ensures EmptyCount(b[m := s]) == EmptyCount(b) - 1
  {
  }

  /** The nine cells in index order. */
  const Cells: seq<nat> := [0, 1, 2, 3, 4, 5, 6, 7, 8]

  /** Every move of `ms` is a free cell of `b`. */
  predicate AllEmpty(b: Board, ms: seq<nat>)
    requires |b| == 9
  {
    forall k :: 0 <= k < |ms| ==> ms[k] < 9 && b[ms[k]] == Empty
  }

  /** A board that is not full has a legal move. */
  lemma NotFullHasMove(b: Board)
    requires !IsFull(b)
    ensures |Moves(b)| > 0
  {
    var i :| 0 <= i < |b| && b[i] == Empty;
    MovesComplete(b);
    assert i in Moves(b);
  }
}
