/**
 * The MENACE player: one matchbox per stored board, built once by a
 * depth-first enumeration of the game from the empty board (keeping one
 * board per symmetry class, always with Cross as the opener), a move drawn
 * from the box of the current board, and a reinforcement of every drawn
 * move at the end of the game.
 */
module Menace {
  import opened Boards
  import opened Transforms
  import opened Matchboxes
  import opened MenaceSpec
  import opened Players

  /**
   * The weights `a` of the box stored under board `k`: nine of them, beats
   * only on free cells, and none negative when boxes start with a
   * non-negative number of beats.
   */
  ghost predicate BoxValid(k: Board, a: array<int>, init: int)
    reads a
  {
    |k| == 9 && a.Length == 9 &&
    forall i :: 0 <= i < 9 ==> (a[i] > 0 ==> k[i] == Empty) && (init >= 0 ==> a[i] >= 0)
  }

  /** A map that differs from `m0` at `key` only is `m0` updated at `key`. */
  lemma UpdateOne(m1: map<Board, seq<int>>, m0: map<Board, seq<int>>, key: Board, v: seq<int>)
    requires m1.Keys == m0.Keys && key in m0 && m1[key] == v
    requires forall k :: k in m0 && k != key ==> m1[k] == m0[k]
    ensures m1 == m0[key := v]
  {
  }

  /** What a request for a move yields: a cell (-1 when the board is not stored), or one of the two failures. */
  datatype Outcome = Cell(index: int) | DiedOut | NoMoveLeft

  class PlayerMenace {
    /** The part every player has: its mark. */
    const player: Player
    /** Beats per legal move in a new box, and the rewards for a tie and for a win. */
    const initBeats: int
    const rewardTie: int
    const rewardWon: int

    /** The boxes drawn from in the current game and the slot drawn from each. */
    var moved: seq<(Matchbox, nat)>
    /** The board under which each box of `moved` is stored. */
    ghost var movedKeys: seq<Board>
    /** One box per stored board. */
    var states: map<Board, Matchbox>
    /** The weight arrays of the boxes. */
    ghost var Repr: set<array<int>>

    /** The weights of every stored box. */
    ghost function Weights(): map<Board, seq<int>>
      reads this`states, this`Repr, Repr
      requires Framed()
    {
      map k | k in states :: states[k].beats[..]
    }

    /** The moves of the current game: the key of each box drawn from and the slot drawn. */
    ghost function Trajectory(): seq<(Board, nat)>
      reads this
      requires |movedKeys| == |moved|
    {
      var ms, ks := moved, movedKeys;
      seq(|ms|, j requires 0 <= j < |ms| => (ks[j], ms[j].1))
    }

    /** The weight arrays of all boxes are in `Repr`. */
    ghost predicate Framed()
      reads this`states, this`Repr
    {
      forall k :: k in states ==> states[k].beats in Repr
    }

    /** Every key has a valid box, and no two keys share a box. */
    ghost predicate StoreValid()
      reads this, Repr
    {
      Framed() &&
      (forall k :: k in states ==> BoxValid(k, states[k].beats, initBeats)) &&
      (forall k, l :: k in states && l in states && k != l ==> states[k].beats != states[l].beats)
    }

    /** Every drawn move names a stored box and a free cell of the board it is stored under. */
    ghost predicate TrajectoryValid()
      reads this
    {
      |movedKeys| == |moved| &&
      forall j :: 0 <= j < |moved| ==>
        movedKeys[j] in states && states[movedKeys[j]] == moved[j].0 &&
        moved[j].1 < 9 && |movedKeys[j]| == 9 && movedKeys[j][moved[j].1] == Empty
    }

    ghost predicate Valid()
      reads this, Repr
    {
      StoreValid() && TrajectoryValid()
    }

    /** Every box holds the weights of a new box: one per free cell of its board, `initBeats` beats each. */
    ghost predicate AllSeeded()
      reads this`states, this`Repr, Repr
    {
      forall k :: k in states ==> states[k].beats in Repr && |k| == 9 && states[k].beats[..] == Seed(k, initBeats)
    }

    /** The empty board and the corner, edge and centre openings have boxes. */
    ghost predicate HasOpeningBoxes()
      reads this
    {
      var e := EmptyBoard();
      e in states && e[0 := Cross] in states && e[1 := Cross] in states && e[4 := Cross] in states
    }

    /**
     * Drawing from the box stored under `key`, starting from the record
     * `moved0`/`keys0`, yielded `res`: no move when the box has no beats
     * left (nothing recorded); otherwise the slot the draw `1 + seed % total`
     * selects, which is a free cell of `key`, is recorded and mapped back
     * through the transform `t`.
     */
    ghost predicate Drew(key: Board, t: Transform, seed: nat, res: Outcome, moved0: seq<(Matchbox, nat)>, keys0: seq<Board>)
      reads this, Repr
      requires Framed() && key in states
    {
      var w := Weights()[key];
      if Total(w) <= 0 then res == NoMoveLeft && moved == moved0 && movedKeys == keys0
      else
        |moved| == |moved0| + 1 && moved[..|moved0|] == moved0 && movedKeys == keys0 + [key] &&
        var slot := moved[|moved0|].1;
        moved[|moved0|].0 == states[key] && slot < 9 && |key| == 9 && key[slot] == Empty &&
        Selects(w, 1 + seed % Total(w), slot) && res == Cell(MapMove(slot, t))
    }

    /**
     * The move chosen on the normalised board `n` (the colours exchanged so
     * that Cross is the opener): the first stored symmetric image is drawn
     * from (see `Drew`), and -1 is the answer when no image is stored.
     */
    ghost predicate Chosen(n: Board, seed: nat, res: Outcome, moved0: seq<(Matchbox, nat)>, keys0: seq<Board>)
      reads this, Repr
      requires Framed() && |n| == 9
    {
      match FirstImage(states.Keys, n)
      case None => res == Cell(-1) && moved == moved0 && movedKeys == keys0
      case Some(j) => Drew(Apply(n, AllTransforms[j]), AllTransforms[j], seed, res, moved0, keys0)
    }

    /** A draw from the first stored image of `n` is the move chosen on `n`. */
    lemma ChosenFromDraw(n: Board, j: nat, seed: nat, res: Outcome, moved0: seq<(Matchbox, nat)>, keys0: seq<Board>)
      requires Framed() && |n| == 9 && FirstImage(states.Keys, n) == Some(j)
      requires Drew(Apply(n, AllTransforms[j]), AllTransforms[j], seed, res, moved0, keys0)
      ensures Chosen(n, seed, res, moved0, keys0)
    {
    }

    /**
     * MENACE is dead when it cannot open (the empty board's box has no
     * positive weight) or cannot answer any of the three openings.
     */
    ghost predicate Died()
      reads this, Repr
      requires Framed() && HasOpeningBoxes()
    {
      var e := EmptyBoard();
      var w := Weights();
      NoBeats(w[e]) || (NoBeats(w[e[0 := Cross]]) && NoBeats(w[e[1 := Cross]]) && NoBeats(w[e[4 := Cross]]))
    }

    /** A new player stores the boards the enumeration from the empty board reaches, one per symmetry class. */
    constructor (initBeats: int, rewardTie: int, rewardWon: int)
      ensures Valid() && HasOpeningBoxes()
      ensures fresh(player) && player.symbol == None
      ensures this.initBeats == initBeats && this.rewardTie == rewardTie && this.rewardWon == rewardWon
      ensures AllSeeded()
      ensures Built(states.Keys)
      ensures moved == []
    {
      player := new Player();
      this.initBeats := initBeats;
      this.rewardTie := rewardTie;
      this.rewardWon := rewardWon;
      moved := [];
      movedKeys := [];
      states := map[];
      Repr := {};
      new;
      var board := new Symbol[9](_ => Empty);
      ghost var e := board[..];
      ghost var keys0 := states.Keys;
      assert keys0 == {};
      SearchStates(board, true);
      assert states.Keys == Search(keys0, e, true);
      BlankOpenings(states.Keys, e);
    }

    /**
     * The position in the transform order of the first symmetric image of
     * `b` that has a box, scanning the transforms in order.
     */
    method FindImage(b: Board) returns (r: Option<nat>)
      requires |b| == 9
      ensures r == FirstImage(states.Keys, b)
    {
      var k := 0;
      while k < |AllTransforms|
        invariant 0 <= k <= |AllTransforms|
        invariant forall j :: 0 <= j < k ==> Apply(b, AllTransforms[j]) !in states
      {
        var trans := Apply(b, AllTransforms[k]);
        if trans in states {
          FirstImageAt(states.Keys, b, k);
          return Some(k);
        }
        k := k + 1;
      }
      return None;
    }

    /**
     * Store the board `b` with a new box unless one of its symmetric images
     * is stored; tells whether one was. The board is only read, and the key
     * stored is a copy of it, so it is passed as a value.
     */
    method ProcessState(b: Board) returns (found: bool)
      requires Valid() && |b| == 9
      modifies this
      ensures Valid()
      ensures found == Known(old(states).Keys, b)
      ensures states.Keys == if found then old(states).Keys else old(states).Keys + {b}
      ensures forall k :: k in old(states) ==> k in states && states[k] == old(states[k])
      ensures !found ==> fresh(states[b].beats) && states[b].beats[..] == Seed(b, initBeats)
      ensures old(AllSeeded()) ==> AllSeeded()
      ensures moved == old(moved) && movedKeys == old(movedKeys)
    {
      var image := FindImage(b);
      if image.Some? {
        return true;
      }
      UnknownNotStored(states.Keys, b);
      StoreNew(b);
      return false;
    }

    /** Store a new box for the unstored board `b`. */
    method StoreNew(b: Board)
      requires Valid() && |b| == 9 && b !in states
      modifies this
      ensures Valid()
      ensures states.Keys == old(states).Keys + {b}
      ensures forall k :: k in old(states) ==> k in states && states[k] == old(states[k])
      ensures fresh(states[b].beats) && states[b].beats[..] == Seed(b, initBeats)
      ensures old(AllSeeded()) ==> AllSeeded()
      ensures moved == old(moved) && movedKeys == old(movedKeys)
    {
      var box := NewBox(b);
      Store(b, box);
    }

    /** A new box for board `b`: `initBeats` beats on every free cell. */
    method NewBox(b: Board) returns (box: Matchbox)
      requires |b| == 9
      ensures fresh(box.beats) && box.beats.Length == 9 && box.beats[..] == Seed(b, initBeats)
    {
      box := new Matchbox(Moves(b), initBeats);
      SeedFromMoves(b, initBeats);
    }

    /** Add the new box `box` under the unstored board `b`. */
    method Store(b: Board, box: Matchbox)
      requires Valid() && |b| == 9 && b !in states && box.beats !in Repr
      requires box.beats.Length == 9 && box.beats[..] == Seed(b, initBeats)
      modifies this
      ensures Valid()
      ensures states == old(states)[b := box] && Repr == old(Repr) + {box.beats}
      ensures states.Keys == old(states).Keys + {b}
      ensures forall k :: k in old(states) ==> k in states && states[k] == old(states[k])
      ensures old(AllSeeded()) ==> AllSeeded()
      ensures moved == old(moved) && movedKeys == old(movedKeys)
    {
      assert BoxValid(b, box.beats, initBeats);
      states := states[b := box];
      Repr := Repr + {box.beats};
    }

    /**
     * Depth-first enumeration from `board`, with Cross to move when
     * `onturn`: store the board, and unless it was known already or the
     * game is over on it, explore every move in turn. The board is restored.
     */
    method SearchStates(board: array<Symbol>, onturn: bool)
      requires Valid() && board.Length == 9
      modifies this, board
      ensures Valid()
      ensures board[..] == old(board[..])
      ensures Enumerates(states.Keys, old(states).Keys, old(board[..]), onturn)
      ensures forall k :: k in old(states) ==> k in states && states[k] == old(states[k])
      ensures old(AllSeeded()) ==> AllSeeded()
      ensures moved == old(moved) && movedKeys == old(movedKeys)
      decreases EmptyCount(board[..]), 2
    {
      ghost var b := board[..];
      ghost var keys0 := states.Keys;
      if IsFull(board[..]) || Winner(board[..]).Some? {
        var _ := ProcessState(board[..]);
        return;
      }
      var moves := Moves(board[..]);
      var found := ProcessState(board[..]);
      if !found {
        SearchUnknown(keys0, b, onturn);
        ExploreMoves(board, moves, onturn);
      }
    }

    /** Explore the free cells `moves` of `board` one after the other (the loop of the enumeration). */
    method ExploreMoves(board: array<Symbol>, moves: seq<nat>, onturn: bool)
      requires Valid() && board.Length == 9 && AllEmpty(board[..], moves)
      modifies this, board
      ensures Valid()
      ensures board[..] == old(board[..])
      ensures Explores(states.Keys, old(states).Keys, old(board[..]), moves, onturn)
      ensures forall k :: k in old(states) ==> k in states && states[k] == old(states[k])
      ensures old(AllSeeded()) ==> AllSeeded()
      ensures moved == old(moved) && movedKeys == old(movedKeys)
      decreases EmptyCount(board[..]), 1
    {
      ghost var b := board[..];
      ghost var target := SearchAll(states.Keys, b, moves, onturn);
      ghost var rest := moves;
      var k := 0;
      while k < |moves|
        invariant 0 <= k <= |moves|
        invariant rest == moves[k..]
        invariant board[..] == b
        invariant Valid()
        invariant AllEmpty(b, rest)
        invariant Explores(target, states.Keys, b, rest, onturn)
        invariant forall key :: key in old(states) ==> key in states && states[key] == old(states[key])
        invariant old(AllSeeded()) ==> AllSeeded()
        invariant moved == old(moved) && movedKeys == old(movedKeys)
      {
        ghost var before := states.Keys;
        assert rest[0] == moves[k];
        ExploreMove(board, moves[k], onturn);
        SearchAllAdvance(target, before, states.Keys, b, rest, onturn);
        assert rest[1..] == moves[k + 1..];
        rest := rest[1..];
        k := k + 1;
      }
    }

    /** Play the free cell `m` for the side to move, enumerate from there, and take the move back. */
    method ExploreMove(board: array<Symbol>, m: nat, onturn: bool)
      requires Valid() && board.Length == 9 && m < 9 && board[m] == Empty
      modifies this, board
      ensures Valid()
      ensures board[..] == old(board[..])
      ensures Enumerates(states.Keys, old(states).Keys, old(board[..])[m := Mark(onturn)], !onturn)
      ensures forall k :: k in old(states) ==> k in states && states[k] == old(states[k])
      ensures old(AllSeeded()) ==> AllSeeded()
      ensures moved == old(moved) && movedKeys == old(movedKeys)
      decreases EmptyCount(board[..]), 0
    {
      ghost var b := board[..];
      PlaceShrinks(b, m, Mark(onturn));
      Put(board, m, Mark(onturn));
      SearchStates(board, !onturn);
      Put(board, m, Empty);
      assert b[m := Mark(onturn)][m := Empty] == b;
    }

    /** Write `s` in cell `m` of `board`; the boxes are not touched. */
    method Put(board: array<Symbol>, m: nat, s: Symbol)
      requires Valid() && m < board.Length
      modifies board
      ensures board[..] == old(board[..])[m := s]
      ensures Valid() && AllSeeded() == old(AllSeeded())
    {
      board[m] := s;
    }

    /** Whether this player opened the game on `board`: it has as many marks as the others. */
    method First(board: array<Symbol>) returns (first: bool)
      ensures first == Opened(board[..], player.symbol)
    {
      var countThis, countThat := 0, 0;
      var i := 0;
      while i < board.Length
        invariant 0 <= i <= board.Length
        invariant (countThis, countThat) == Tally(board[..i], player.symbol)
      {
        assert board[..i + 1][..i] == board[..i];
        if player.symbol == Some(board[i]) {
          countThis := countThis + 1;
        } else if board[i] != Empty {
          countThat := countThat + 1;
        }
        i := i + 1;
      }
      assert board[..i] == board[..];
      first := countThis == countThat;
    }

    /** Whether the colours of `board` must be exchanged so that Cross is the opener. */
    method NeedsSwap(board: array<Symbol>) returns (swap: bool)
      ensures swap == MenaceSpec.NeedsSwap(board[..], player.symbol)
    {
      var first := First(board);
      if first {
        swap := player.symbol == Some(Circle);
      } else {
        swap := player.symbol == Some(Cross);
      }
    }

    /** Whether MENACE has died: see `Died`. */
    method MenaceDied() returns (died: bool)
      requires Valid() && HasOpeningBoxes()
      ensures died == Died()
    {
      var e := EmptyBoard();
      var dead := states[e].Dead();
      if dead {
        return true;
      }
      var openings := [0, 1, 4];
      var k := 0;
      while k < |openings|
        invariant 0 <= k <= |openings|
        invariant forall j :: 0 <= j < k ==> NoBeats(Weights()[e[openings[j] := Cross]])
      {
        var board := e[openings[k] := Cross];
        dead := states[board].Dead();
        if !dead {
          return false;
        }
        k := k + 1;
      }
      assert openings[0] == 0 && openings[1] == 1 && openings[2] == 4;
      return true;
    }

    /**
     * The move on `board`. Fails when MENACE has died; otherwise see `Choose`.
     */
    method Move(board: array<Symbol>, seed: nat) returns (res: Outcome)
      requires Valid() && HasOpeningBoxes() && board.Length == 9
      modifies this
      ensures Valid() && HasOpeningBoxes()
      ensures states == old(states) && Repr == old(Repr)
      ensures res == DiedOut <==> old(Died())
      ensures res == DiedOut ==> moved == old(moved) && movedKeys == old(movedKeys)
      ensures res.Cell? && res.index >= 0 ==> res.index < 9 && old(board[..])[res.index] == Empty
      ensures !old(Died()) ==> Chosen(Normalise(old(board[..]), old(player.symbol)), seed, res, old(moved), old(movedKeys))
    {
      var died := MenaceDied();
      if died {
        return DiedOut;
      }
      res := Choose(board, seed);
    }

    /**
     * The move on `board` of a MENACE that has not died: the board is
     * brought to the "Cross opens" convention and the move is chosen on the
     * result (see `ChooseOn`).
     */
    method Choose(board: array<Symbol>, seed: nat) returns (res: Outcome)
      requires Valid() && board.Length == 9
      modifies this
      ensures Valid()
      ensures states == old(states) && Repr == old(Repr)
      ensures res != DiedOut
      ensures res.Cell? && res.index >= 0 ==> res.index < 9 && old(board[..])[res.index] == Empty
      ensures Chosen(Normalise(old(board[..]), old(player.symbol)), seed, res, old(moved), old(movedKeys))
    {
      var swap := NeedsSwap(board);
      var swapped := if swap then SwapAll(board[..]) else board[..];
      assert swapped == Normalise(board[..], player.symbol);
      res := ChooseOn(swapped, seed);
    }

    /**
     * The move on the normalised board `n`: its first stored symmetric
     * image is looked up, a slot is drawn from that box with the random
     * number `seed` (failing when the box is empty), recorded, and mapped
     * back to a cell of `n`. Yields -1 when no image is stored.
     */
    method ChooseOn(n: Board, seed: nat) returns (res: Outcome)
      requires Valid() && |n| == 9
      modifies this
      ensures Valid()
      ensures states == old(states) && Repr == old(Repr)
      ensures res != DiedOut
      ensures res.Cell? && res.index >= 0 ==> res.index < 9 && n[res.index] == Empty
      ensures Chosen(n, seed, res, old(moved), old(movedKeys))
    {
      var image := FindImage(n);
      if image.None? {
        return Cell(-1);
      }
      var t := AllTransforms[image.value];
      var trans := Apply(n, t);
      res := DrawFrom(trans, t, seed);
      ChosenFromDraw(n, image.value, seed, res, old(moved), old(movedKeys));
    }

    /**
     * Draw a slot from the box stored under `key` with the random number
     * `seed`, record it, and map it back through the transform `t`; fails
     * when the box has no beats left.
     */
    method DrawFrom(key: Board, t: Transform, seed: nat) returns (res: Outcome)
      requires Valid() && key in states
      modifies this
      ensures Valid()
      ensures states == old(states) && Repr == old(Repr)
      ensures Drew(key, t, seed, res, old(moved), old(movedKeys))
    {
      var matchbox := states[key];
      var d := matchbox.Move(seed);
      if d.NoMove? {
        return NoMoveLeft;
      }
      Record(key, d.index);
      return Cell(MapMove(d.index, t));
    }

    /** Remember that slot `slot` of the box stored under `key` was drawn. */
    method Record(key: Board, slot: nat)
      requires Valid() && key in states && |key| == 9 && slot < 9 && key[slot] == Empty
      modifies this
      ensures Valid()
      ensures states == old(states) && Repr == old(Repr)
      ensures moved == old(moved) + [(states[key], slot)] && movedKeys == old(movedKeys) + [key]
    {
      moved := moved + [(states[key], slot)];
      movedKeys := movedKeys + [key];
    }

    /** The beats added to every drawn move at the end of a game with the given winner. */
    function Reward(winner: Player?): (r: int)
      reads player, winner
      ensures winner == null ==> r == rewardTie
      ensures winner != null && winner.GetSymbol() == player.GetSymbol() ==> r == rewardWon
      ensures winner != null && winner.GetSymbol() != player.GetSymbol() ==> r == -1
    {
      if winner == null then rewardTie else if player.Equals(winner) then rewardWon else -1
    }

    /**
     * End-of-game learning: every move drawn in the game gets the reward
     * for the result (a tie, a win of this player, or -1 for a loss), and
     * the record of the game is cleared.
     */
    method Learn(winner: Player?)
      requires Valid()
      modifies this, Repr
      ensures Valid()
      ensures states == old(states)
      ensures Fits(old(Weights()), old(Trajectory())) &&
        Weights() == Reinforce(old(Weights()), old(Trajectory()), Reward(winner))
      ensures moved == [] && movedKeys == []
    {
      var learn := Reward(winner);
      ReinforceAll(learn);
      Forget();
    }

    /** Add `learn` beats to every move drawn in the game, in order. */
    method ReinforceAll(learn: int)
      requires Valid()
      modifies Repr
      ensures Valid()
      ensures Fits(old(Weights()), Trajectory()) &&
        Weights() == Reinforce(old(Weights()), Trajectory(), learn)
    {
      ghost var w0 := Weights();
      ghost var path := Trajectory();
      assert Fits(w0, path) by {
        forall j | 0 <= j < |path|
          ensures path[j].0 in w0 && path[j].1 < |w0[path[j].0]|
        {
          assert path[j] == (movedKeys[j], moved[j].1);
        }
      }
      var j := 0;
      while j < |moved|
        invariant 0 <= j <= |moved|
        invariant Valid()
        invariant Weights() == Reinforce(w0, path[..j], learn)
      {
        var (box, slot) := moved[j];
        LearnStep(box, slot, learn, w0, path, j);
        j := j + 1;
      }
      assert path[..j] == path;
    }

    /** Clear the record of the current game; the boxes are untouched. */
    method Forget()
      requires Valid()
      modifies this
      ensures Valid()
      ensures states == old(states) && Repr == old(Repr) && Weights() == old(Weights())
      ensures moved == [] && movedKeys == []
    {
      moved := [];
      movedKeys := [];
    }

    /** One reinforcement step changes the weights of one box only, as `Reinforce` prescribes. */
    method LearnStep(box: Matchbox, slot: nat, learn: int, ghost w0: map<Board, seq<int>>, ghost path: seq<(Board, nat)>, j: nat)
      requires Valid() && j < |moved| && (box, slot) == moved[j]
      requires Fits(w0, path) && |path| == |moved| && path[j] == (movedKeys[j], slot)
      requires Weights() == Reinforce(w0, path[..j], learn)
      modifies box.beats
      ensures Valid()
      ensures Weights() == Reinforce(w0, path[..j + 1], learn)
    {
      ghost var key := movedKeys[j];
      ghost var before := Weights();
      assert path[..j + 1][..j] == path[..j];
      assert BoxValid(key, box.beats, initBeats) && key[slot] == Empty;
      ghost var w := box.beats[..];
      box.Add(slot, learn);
      assert BoxValid(key, box.beats, initBeats) by {
        forall i | 0 <= i < 9
          ensures (box.beats[i] > 0 ==> key[i] == Empty) && (initBeats >= 0 ==> box.beats[i] >= 0)
        {
          assert box.beats[i] == AddAt(w, slot, learn)[i];
        }
      }
      forall k | k in states && k != key
        ensures states[k].beats[..] == before[k] && BoxValid(k, states[k].beats, initBeats)
      {
        assert states[k].beats != box.beats;
      }
      ghost var after := Weights();
      assert after.Keys == before.Keys && after[key] == AddAt(before[key], slot, learn);
      UpdateOne(after, before, key, AddAt(before[key], slot, learn));
    }
  }
}
