/**
 * The MENACE state store as values: which boards the depth-first
 * enumeration stores, how a board is brought to the "Cross opens"
 * convention before lookup, what a box is seeded with, and what a round of
 * reinforcement does to the weights.
 */
module MenaceSpec {
  import opened Boards
  import opened Transforms
  import opened Matchboxes

  /** The mark placed while enumerating: Cross when `onturn`, Circle otherwise. */
  function Mark(onturn: bool): Symbol
  {
    if onturn then Cross else Circle
  }

  /**
   * The keys after processing `b`: nothing changes when some symmetric
   * image of `b` is stored already; otherwise `b` is added and, unless the
   * game is over on `b`, every move is explored in order with the marks
   * alternating.
   */
  function Search(keys: set<Board>, b: Board, onturn: bool): set<Board>
    requires |b| == 9
    decreases EmptyCount(b), 2, 0
  {
    Visit(keys, b, onturn)
  }

  /**
   * The case analysis of `Search`, kept as a function of its own so that
   * the enumeration can be mentioned without expanding the symmetry lookup.
   */
  function Visit(keys: set<Board>, b: Board, onturn: bool): set<Board>
    requires |b| == 9
    decreases EmptyCount(b), 1, 0
  {
    if Known(keys, b) then keys
    else if Terminal(b) then keys + {b}
    else SearchAll(keys + {b}, b, Moves(b), onturn)
  }

  /** `after` is what the enumeration from `b` stores, starting from the keys `before`. */
  ghost predicate Enumerates(after: set<Board>, before: set<Board>, b: Board, onturn: bool)
    requires |b| == 9
  {
    after == Search(before, b, onturn)
  }

  /** `after` is what exploring the moves `ms` of `b` in order stores, starting from the keys `before`. */
  ghost predicate Explores(after: set<Board>, before: set<Board>, b: Board, ms: seq<nat>, onturn: bool)
    requires |b| == 9 && AllEmpty(b, ms)
  {
    after == SearchAll(before, b, ms, onturn)
  }

  /** The keys after exploring the moves `ms` of `b` one after the other. */
  function SearchAll(keys: set<Board>, b: Board, ms: seq<nat>, onturn: bool): set<Board>
    requires |b| == 9 && AllEmpty(b, ms)
    decreases EmptyCount(b), 0, |ms|
  {
    if ms == [] then keys
    else
      PlaceShrinks(b, ms[0], Mark(onturn));
      SearchAll(Search(keys, b[ms[0] := Mark(onturn)], !onturn), b, ms[1..], onturn)
  }

  /**
   * The enumeration only adds keys; what it adds is `b` itself (exactly when
   * no image of `b` was stored) or a board further into the game.
   */
  lemma {:induction false} SearchGrows(keys: set<Board>, b: Board, onturn: bool)
    requires |b| == 9
    ensures keys <= Search(keys, b, onturn)
    ensures forall x :: x in Search(keys, b, onturn) - keys ==> x == b || EmptyCount(x) < EmptyCount(b)
    ensures !Known(keys, b) ==> b in Search(keys, b, onturn)
    ensures Known(keys, b) ==> Search(keys, b, onturn) == keys
    decreases EmptyCount(b), 1, 0
  {
    if !Known(keys, b) && !Terminal(b) {
      SearchAllGrows(keys + {b}, b, Moves(b), onturn);
    }
  }

  lemma {:induction false} SearchAllGrows(keys: set<Board>, b: Board, ms: seq<nat>, onturn: bool)
    requires |b| == 9 && AllEmpty(b, ms)
    ensures keys <= SearchAll(keys, b, ms, onturn)
    ensures forall x :: x in SearchAll(keys, b, ms, onturn) - keys ==> EmptyCount(x) < EmptyCount(b)
    decreases EmptyCount(b), 0, |ms|
  {
    if ms != [] {
      ChildGrows(keys, b, ms[0], onturn);
      SearchAllGrows(Search(keys, b[ms[0] := Mark(onturn)], !onturn), b, ms[1..], onturn);
    }
  }

  /** Exploring one move of `b` only adds keys, all with more marks than `b`. */
  lemma {:induction false} ChildGrows(keys: set<Board>, b: Board, m: nat, onturn: bool)
    requires |b| == 9 && m < 9 && b[m] == Empty
    ensures keys <= Search(keys, b[m := Mark(onturn)], !onturn)
    ensures forall x :: x in Search(keys, b[m := Mark(onturn)], !onturn) - keys ==> EmptyCount(x) < EmptyCount(b)
    decreases EmptyCount(b), 0, 0
  {
    PlaceShrinks(b, m, Mark(onturn));
    SearchGrows(keys, b[m := Mark(onturn)], !onturn);
  }

  /**
   * One board per symmetry class: every key has nine cells, and no key is
   * the image of another key under any symmetry.
   */
  ghost predicate NoTwins(keys: set<Board>)
  {
    (forall x :: x in keys ==> |x| == 9) &&
    forall x, y, t :: x in keys && y in keys && |x| == 9 && x != y ==> Apply(x, t) != y
  }

  /** No symmetric image of `b` is one of `keys`. */
  ghost predicate Unseen(keys: set<Board>, b: Board)
    requires |b| == 9
  {
    forall t :: Apply(b, t) !in keys
  }

  /** A board that is not known is unseen: every symmetry is scanned. */
  lemma UnknownUnseen(keys: set<Board>, b: Board)
    requires |b| == 9 && !Known(keys, b)
    ensures Unseen(keys, b)
  {
    forall t: Transform
      ensures Apply(b, t) !in keys
    {
      Listed(t);
      var j :| 0 <= j < |AllTransforms| && AllTransforms[j] == t;
    }
  }

  /** No key is mapped onto an unseen board: the inverse symmetry would map it back. */
  lemma NoKeyMapsTo(keys: set<Board>, b: Board, x: Board, t: Transform)
    requires |b| == 9 && Unseen(keys, b) && x in keys && |x| == 9
    ensures Apply(x, t) != b
  {
    ApplyInverse(x, t);
    assert Apply(b, Inv(t)) !in keys;
  }

  /** Adding an unseen board keeps one board per class. */
  lemma AddUnseen(keys: set<Board>, b: Board)
    requires NoTwins(keys) && |b| == 9 && Unseen(keys, b)
    ensures NoTwins(keys + {b})
  {
    var ks := keys + {b};
    forall x, y, t | x in ks && y in ks && |x| == 9 && x != y
      ensures Apply(x, t) != y
    {
      if x == b {
        assert Apply(b, t) !in keys;
      } else if y == b {
        NoKeyMapsTo(keys, b, x, t);
      }
    }
  }

  /** The enumeration keeps one board per symmetry class. */
  lemma {:induction false} SearchNoTwins(keys: set<Board>, b: Board, onturn: bool)
    requires |b| == 9 && NoTwins(keys)
    ensures NoTwins(Search(keys, b, onturn))
    decreases EmptyCount(b), 1, 0
  {
    if !Known(keys, b) {
      UnknownUnseen(keys, b);
      AddUnseen(keys, b);
      if !Terminal(b) {
        SearchAllNoTwins(keys + {b}, b, Moves(b), onturn);
      }
    }
  }

  lemma {:induction false} SearchAllNoTwins(keys: set<Board>, b: Board, ms: seq<nat>, onturn: bool)
    requires |b| == 9 && AllEmpty(b, ms) && NoTwins(keys)
    ensures NoTwins(SearchAll(keys, b, ms, onturn))
    decreases EmptyCount(b), 0, |ms|
  {
    if ms != [] {
      var child := b[ms[0] := Mark(onturn)];
      PlaceShrinks(b, ms[0], Mark(onturn));
      SearchNoTwins(keys, child, !onturn);
      SearchAllNoTwins(Search(keys, child, !onturn), b, ms[1..], onturn);
    }
  }

  /** A board of nine empty cells, the position the enumeration starts from. */
  ghost predicate Blank(e: Board)
  {
    |e| == 9 && forall i :: 0 <= i < 9 ==> e[i] == Empty
  }

  lemma BlankIsEmptyBoard(e: Board)
    requires Blank(e)
    ensures e == EmptyBoard()
  {
  }

  /** The empty board has nine free cells and every opening position eight. */
  lemma OpeningCount(e: Board, i: nat)
    requires Blank(e) && i < 9
    ensures EmptyCount(e) == 9 && EmptyCount(e[i := Cross]) == 8
  {
    BlankIsEmptyBoard(e);
    assert multiset(EmptyBoard())[Empty] == 9;
    PlaceShrinks(e, i, Cross);
  }

  /** The corner, edge and centre openings, and the empty board, under every symmetry. */
  lemma OpeningImages(e: Board, t: Transform)
    requires Blank(e)
    ensures Apply(e[4 := Cross], t) == e[4 := Cross]
    ensures var img := Apply(e[1 := Cross], t);
      img == e[1 := Cross] || img == e[3 := Cross] || img == e[5 := Cross] || img == e[7 := Cross]
    ensures Apply(e[0 := Cross], t) != e
    ensures Apply(e, t) == e
  {
    var centre := e[4 := Cross];
    var img := Apply(centre, t);
    forall i | 0 <= i < 9
      ensures img[i] == centre[i]
    {
      CentreFixed(t, i);
    }
    var c := CornerSource(t);
    assert Apply(e[0 := Cross], t)[c] == Cross;
    BlankFixed(e, t);
    EdgeImages(e, t);
  }

  /** Every symmetry maps the empty board to itself. */
  lemma BlankFixed(e: Board, t: Transform)
    requires Blank(e)
    ensures Apply(e, t) == e
  {
    var img := Apply(e, t);
    forall i | 0 <= i < 9
      ensures img[i] == e[i]
    {
      assert img[i] == e[MapMove(i, t)];
    }
  }

  /** An edge opening is mapped to an edge opening by every symmetry. */
  lemma EdgeImages(e: Board, t: Transform)
    requires Blank(e)
    ensures var img := Apply(e[1 := Cross], t);
      img == e[1 := Cross] || img == e[3 := Cross] || img == e[5 := Cross] || img == e[7 := Cross]
  {
    BlankIsEmptyBoard(e);
    match t
    case Identity =>
      assert Apply(e[1 := Cross], t) == e[1 := Cross];
    case Rotate90 =>
      assert Apply(e[1 := Cross], t) == e[5 := Cross];
    case Rotate180 =>
      assert Apply(e[1 := Cross], t) == e[7 := Cross];
    case Rotate270 =>
      assert Apply(e[1 := Cross], t) == e[3 := Cross];
    case MirrorRows =>
      assert Apply(e[1 := Cross], t) == e[1 := Cross];
    case MirrorColumns =>
      assert Apply(e[1 := Cross], t) == e[7 := Cross];
    case MirrorDiagonal =>
      assert Apply(e[1 := Cross], t) == e[3 := Cross];
    case MirrorAntiDiagonal =>
      assert Apply(e[1 := Cross], t) == e[5 := Cross];
  }

  /** Every key is one of `allowed` or a board with at least two marks. */
  ghost predicate AtMostOneMark(keys: set<Board>, allowed: set<Board>)
  {
    forall x :: x in keys ==> x in allowed || EmptyCount(x) < 8
  }

  /** Exploring an opening adds it, if at all, together with boards holding more marks. */
  lemma OpeningExplored(e: Board, keys: set<Board>, i: nat, allowed: set<Board>)
    requires Blank(e) && i < 9 && AtMostOneMark(keys, allowed)
    ensures AtMostOneMark(Search(keys, e[i := Cross], false), allowed + {e[i := Cross]})
    ensures keys <= Search(keys, e[i := Cross], false)
  {
    OpeningCount(e, i);
    SearchGrows(keys, e[i := Cross], false);
  }

  /** The corner opening is stored: only the empty board is stored before it. */
  lemma CornerStored(e: Board)
    requires Blank(e)
    ensures e[0 := Cross] in Search({e}, e[0 := Cross], false)
  {
    forall t | t in AllTransforms
      ensures Apply(e[0 := Cross], t) !in {e}
    {
      OpeningImages(e, t);
    }
    NoImageUnknown({e}, e[0 := Cross]);
    SearchGrows({e}, e[0 := Cross], false);
  }

  /** A one-mark board that is not among `allowed` is not a key. */
  lemma OpeningNotKey(e: Board, keys: set<Board>, allowed: set<Board>, j: nat)
    requires Blank(e) && j < 9 && AtMostOneMark(keys, allowed) && e[j := Cross] !in allowed
    ensures e[j := Cross] !in keys
  {
    OpeningCount(e, j);
  }

  /** No edge opening is a key while only the empty board and the corner opening have one mark or none. */
  lemma EdgeNotKey(e: Board, keys: set<Board>, j: nat)
    requires Blank(e) && 0 < j < 9 && AtMostOneMark(keys, {e, e[0 := Cross]})
    ensures e[j := Cross] !in keys
  {
    assert e[j := Cross][j] != e[j] && e[j := Cross][j] != e[0 := Cross][j];
    OpeningNotKey(e, keys, {e, e[0 := Cross]}, j);
  }

  /** The edge opening is stored: no edge opening is stored before it. */
  lemma EdgeStored(e: Board, keys: set<Board>)
    requires Blank(e) && AtMostOneMark(keys, {e, e[0 := Cross]})
    ensures e[1 := Cross] in Search(keys, e[1 := Cross], false)
  {
    EdgeNotKey(e, keys, 1);
    EdgeNotKey(e, keys, 3);
    EdgeNotKey(e, keys, 5);
    EdgeNotKey(e, keys, 7);
    forall t | t in AllTransforms
      ensures Apply(e[1 := Cross], t) !in keys
    {
      OpeningImages(e, t);
    }
    NoImageUnknown(keys, e[1 := Cross]);
    SearchGrows(keys, e[1 := Cross], false);
  }

  /** The centre opening is stored: it is its own only image and was not stored before. */
  lemma CentreStored(e: Board, keys: set<Board>)
    requires Blank(e) && AtMostOneMark(keys, {e, e[0 := Cross], e[1 := Cross], e[2 := Cross], e[3 := Cross]})
    ensures e[4 := Cross] in Search(keys, e[4 := Cross], false)
  {
    var o := e[4 := Cross];
    assert o[4] != e[4] && o[4] != e[0 := Cross][4] && o[4] != e[1 := Cross][4];
    assert o[4] != e[2 := Cross][4] && o[4] != e[3 := Cross][4];
    OpeningNotKey(e, keys, {e, e[0 := Cross], e[1 := Cross], e[2 := Cross], e[3 := Cross]}, 4);
    forall t | t in AllTransforms
      ensures Apply(o, t) !in keys
    {
      OpeningImages(e, t);
    }
    NoImageUnknown(keys, o);
    SearchGrows(keys, o, false);
  }

  lemma SearchAllStep(keys: set<Board>, b: Board, ms: seq<nat>, onturn: bool)
    requires |b| == 9 && AllEmpty(b, ms)
    requires ms != []
    ensures SearchAll(keys, b, ms, onturn) ==
      SearchAll(Search(keys, b[ms[0] := Mark(onturn)], !onturn), b, ms[1..], onturn)
  {
  }

  /** One more move of `ms` explored: the rest of the exploration starts from the keys it produced. */
  lemma SearchAllAdvance(target: set<Board>, keys: set<Board>, next: set<Board>, b: Board, ms: seq<nat>, onturn: bool)
    requires |b| == 9 && ms != [] && AllEmpty(b, ms)
    requires Explores(target, keys, b, ms, onturn)
    requires Enumerates(next, keys, b[ms[0] := Mark(onturn)], !onturn)
    ensures AllEmpty(b, ms[1..])
    ensures Explores(target, next, b, ms[1..], onturn)
  {
    SearchAllStep(keys, b, ms, onturn);
  }

  /** Processing a board no image of which is stored, and on which the game is not over, explores its moves. */
  lemma SearchUnknown(keys: set<Board>, b: Board, onturn: bool)
    requires |b| == 9 && !Known(keys, b) && !Terminal(b)
    ensures Search(keys, b, onturn) == SearchAll(keys + {b}, b, Moves(b), onturn)
  {
  }

  lemma BlankMoves(e: Board)
    requires Blank(e)
    ensures Moves(e) == Cells
  {
    assert MovesFrom(e, 9) == [];
    assert MovesFrom(e, 8) == [8];
    assert MovesFrom(e, 7) == [7, 8];
    assert MovesFrom(e, 6) == [6, 7, 8];
    assert MovesFrom(e, 5) == [5, 6, 7, 8];
    assert MovesFrom(e, 4) == [4, 5, 6, 7, 8];
    assert MovesFrom(e, 3) == [3, 4, 5, 6, 7, 8];
    assert MovesFrom(e, 2) == [2, 3, 4, 5, 6, 7, 8];
    assert MovesFrom(e, 1) == [1, 2, 3, 4, 5, 6, 7, 8];
  }

  /** The keys once the first `n` openings have been explored from the empty board `e`. */
  function OpeningsExplored(e: Board, n: nat): set<Board>
    requires |e| == 9 && n <= 9
  {
    if n == 0 then {e}
    else Search(OpeningsExplored(e, n - 1), e[n - 1 := Cross], false)
  }

  /** The empty board is stored and its nine moves are explored in cell order. */
  lemma BlankStart(e: Board)
    requires Blank(e)
    ensures Search({}, e, true) == SearchAll(OpeningsExplored(e, 0), e, Cells, true)
  {
    assert !Known({}, e);
    WinnerOwnsLine(e);
    assert !Terminal(e) by {
      assert e[0] == Empty;
    }
    BlankMoves(e);
    SearchUnknown({}, e, true);
    assert {} + {e} == {e};
  }

  /** Exploring opening `n - 1` turns the keys after `n - 1` openings into those after `n`. */
  lemma OpeningStep(e: Board, n: nat, ms: seq<nat>)
    requires Blank(e) && 0 < n <= 9 && AllEmpty(e, ms) && ms != [] && ms[0] == n - 1
    ensures SearchAll(OpeningsExplored(e, n - 1), e, ms, true) == SearchAll(OpeningsExplored(e, n), e, ms[1..], true)
  {
    SearchAllStep(OpeningsExplored(e, n - 1), e, ms, true);
    assert e[ms[0] := Mark(true)] == e[n - 1 := Cross];
  }

  /** Every cell of the empty board is free. */
  lemma BlankCellsFree(e: Board, n: nat)
    requires Blank(e) && n <= 9
    ensures AllEmpty(e, Cells[n..])
  {
  }

  /** The enumeration from the empty board explores the nine openings in cell order. */
  lemma {:induction false} BlankUnfolds(e: Board, n: nat)
    requires Blank(e) && n <= 9
    ensures (BlankCellsFree(e, n); Search({}, e, true) == SearchAll(OpeningsExplored(e, n), e, Cells[n..], true))
  {
    BlankCellsFree(e, n);
    if n == 0 {
      BlankStart(e);
    } else {
      BlankUnfolds(e, n - 1);
      BlankUnfoldStep(e, n);
    }
  }

  /** One more opening of the empty board explored, as `BlankUnfolds` counts them. */
  lemma BlankUnfoldStep(e: Board, n: nat)
    requires Blank(e) && 0 < n <= 9
    ensures AllEmpty(e, Cells[n - 1..]) && AllEmpty(e, Cells[n..])
    ensures SearchAll(OpeningsExplored(e, n - 1), e, Cells[n - 1..], true) ==
      SearchAll(OpeningsExplored(e, n), e, Cells[n..], true)
  {
    var ms := Cells[n - 1..];
    BlankCellsFree(e, n - 1);
    BlankCellsFree(e, n);
    assert ms[0] == n - 1 && ms[1..] == Cells[n..];
    OpeningStep(e, n, ms);
  }

  /** After the first five openings the empty board and the corner, edge and centre openings are stored. */
  lemma FirstOpeningsStored(e: Board)
    requires Blank(e)
    ensures var k := OpeningsExplored(e, 5);
      e in k && e[0 := Cross] in k && e[1 := Cross] in k && e[4 := Cross] in k
  {
    var k0, k1, k2, k3, k4 := OpeningsExplored(e, 0), OpeningsExplored(e, 1), OpeningsExplored(e, 2), OpeningsExplored(e, 3), OpeningsExplored(e, 4);
    assert AtMostOneMark(k0, {e});
    OpeningExplored(e, k0, 0, {e});
    CornerStored(e);
    OpeningExplored(e, k1, 1, {e, e[0 := Cross]});
    EdgeStored(e, k1);
    OpeningExplored(e, k2, 2, {e, e[0 := Cross], e[1 := Cross]});
    OpeningExplored(e, k3, 3, {e, e[0 := Cross], e[1 := Cross], e[2 := Cross]});
    OpeningExplored(e, k4, 4, {e, e[0 := Cross], e[1 := Cross], e[2 := Cross], e[3 := Cross]});
    CentreStored(e, k4);
  }

  /**
   * The enumeration from the empty board stores the empty board and the
   * three symmetry-distinct openings (corner 0, edge 1, centre 4), the four
   * boxes the death check reads.
   */
  lemma OpeningBoxesStored(e: Board)
    requires Blank(e)
    ensures var r := Search({}, e, true);
      e in r && e[0 := Cross] in r && e[1 := Cross] in r && e[4 := Cross] in r
  {
    BlankUnfolds(e, 5);
    SearchAllGrows(OpeningsExplored(e, 5), e, Cells[5..], true);
    FirstOpeningsStored(e);
  }

  /**
   * `keys` are what the enumeration from the empty board, Cross to move,
   * stores, and they hold one board per symmetry class.
   */
  ghost predicate Built(keys: set<Board>)
  {
    (exists e :: Blank(e) && Enumerates(keys, {}, e, true)) && NoTwins(keys)
  }

  /**
   * The keys the enumeration from the empty board stores: the four opening
   * boards (named literally), one board per symmetry class.
   */
  lemma BlankOpenings(keys: set<Board>, e: Board)
    requires Blank(e) && keys == Search({}, e, true)
    ensures var z := EmptyBoard();
      z in keys && z[0 := Cross] in keys && z[1 := Cross] in keys && z[4 := Cross] in keys
    ensures Built(keys)
  {
    OpeningBoxesStored(e);
    BlankIsEmptyBoard(e);
    SearchNoTwins({}, e, true);
    assert Enumerates(keys, {}, e, true);
  }

  // ---------------------------------------------------------------------
  // A new box

  /** The weights of a new box for `b`: `init` beats on every free cell, none elsewhere. */
  function Seed(b: Board, init: int): seq<int>
    requires |b| == 9
  {
    seq(9, i requires 0 <= i < 9 => if b[i] == Empty then init else 0)
  }

  /** A box filled from the move list of `b` holds exactly the seed weights of `b`. */
  lemma SeedFromMoves(b: Board, init: int)
    requires |b| == 9
    ensures Fill(Moves(b), init) == Seed(b, init)
  {
    forall i | 0 <= i < 9
      ensures Fill(Moves(b), init)[i] == Seed(b, init)[i]
    {
      MovesOnce(b, i);
      FillCounts(Moves(b), init, i);
    }
  }

  // ---------------------------------------------------------------------
  // Reinforcement

  /** Every entry of the trajectory names a stored box and one of its nine slots. */
  ghost predicate Fits(w: map<Board, seq<int>>, ps: seq<(Board, nat)>)
  {
    forall j :: 0 <= j < |ps| ==> ps[j].0 in w && ps[j].1 < |w[ps[j].0]|
  }

  /**
   * The weights after the end-of-game update: `d` beats are added to the
   * slot of every entry of the trajectory `ps`, in order, each clamped at
   * zero.
   */
  function Reinforce(w: map<Board, seq<int>>, ps: seq<(Board, nat)>, d: int): (r: map<Board, seq<int>>)
    requires Fits(w, ps)
    ensures r.Keys == w.Keys
    ensures forall k :: k in w ==> |r[k]| == |w[k]|
    decreases |ps|
  {
    if ps == [] then w
    else
      var prev := Reinforce(w, ps[..|ps| - 1], d);
      var (key, m) := ps[|ps| - 1];
      prev[key := AddAt(prev[key], m, d)]
  }

  /** A slot that no entry of the trajectory names keeps its weight. */
  lemma {:induction false} ReinforceUntouched(w: map<Board, seq<int>>, ps: seq<(Board, nat)>, d: int, k: Board, i: nat)
    requires Fits(w, ps) && k in w && i < |w[k]|
    requires forall j :: 0 <= j < |ps| ==> ps[j] != (k, i)
    ensures Reinforce(w, ps, d)[k][i] == w[k][i]
    decreases |ps|
  {
    if ps != [] {
      ReinforceUntouched(w, ps[..|ps| - 1], d, k, i);
    }
  }

  /** Every slot the trajectory names ends with a weight of zero or more. */
  lemma {:induction false} ReinforceTouchedNonNegative(w: map<Board, seq<int>>, ps: seq<(Board, nat)>, d: int, j: nat)
    requires Fits(w, ps) && j < |ps|
    ensures Reinforce(w, ps, d)[ps[j].0][ps[j].1] >= 0
    decreases |ps|
  {
    if j < |ps| - 1 {
      ReinforceTouchedNonNegative(w, ps[..|ps| - 1], d, j);
    }
  }

  /** A slot named once by the trajectory gains exactly `d` beats, clamped at zero. */
  lemma {:induction false} ReinforceOnce(w: map<Board, seq<int>>, ps: seq<(Board, nat)>, d: int, j: nat)
    requires Fits(w, ps) && j < |ps|
    requires forall l :: 0 <= l < |ps| && l != j ==> ps[l] != ps[j]
    ensures var (k, i) := ps[j];
      Reinforce(w, ps, d)[k][i] == if w[k][i] + d < 0 then 0 else w[k][i] + d
    decreases |ps|
  {
    var (k, i) := ps[j];
    if j < |ps| - 1 {
      ReinforceOnce(w, ps[..|ps| - 1], d, j);
    } else {
      ReinforceUntouched(w, ps[..|ps| - 1], d, k, i);
    }
  }

  /**
   * A reward never lowers a weight; a punishment never raises one that is
   * not negative.
   */
  lemma {:induction false} ReinforceMonotone(w: map<Board, seq<int>>, ps: seq<(Board, nat)>, d: int, k: Board, i: nat)
    requires Fits(w, ps) && k in w && i < |w[k]|
    ensures d >= 0 ==> Reinforce(w, ps, d)[k][i] >= w[k][i]
    ensures d <= 0 && w[k][i] >= 0 ==> 0 <= Reinforce(w, ps, d)[k][i] <= w[k][i]
    decreases |ps|
  {
    if ps != [] {
      ReinforceMonotone(w, ps[..|ps| - 1], d, k, i);
    }
  }

  // ---------------------------------------------------------------------
  // Bringing a board to the "Cross opens" convention

  /**
   * The counts of the player's own marks and of the other marks on `b`, as
   * the player with mark `sym` tallies them cell by cell.
   */
  function Tally(b: Board, sym: Option<Symbol>): (nat, nat)
    decreases |b|
  {
    if b == [] then (0, 0)
    else
      var (mine, theirs) := Tally(b[..|b| - 1], sym);
      var last := b[|b| - 1];
      if sym == Some(last) then (mine + 1, theirs)
      else if last != Empty then (mine, theirs + 1)
      else (mine, theirs)
  }

  /**
   * The tally counts the player's own mark and the other mark; a player
   * without a mark counts every mark as the other side's.
   */
  lemma {:induction false} TallyCounts(b: Board, sym: Option<Symbol>)
    ensures sym.Some? && sym.value != Empty ==>
      Tally(b, sym) == (multiset(b)[sym.value], multiset(b)[Opponent(sym.value)])
    ensures sym.None? ==> Tally(b, sym) == (0, |b| - multiset(b)[Empty])
    decreases |b|
  {
    if b != [] {
      var init, last := b[..|b| - 1], b[|b| - 1];
      TallyCounts(init, sym);
      assert b == init + [last];
      assert multiset(b) == multiset(init) + multiset{last};
    }
  }

  /** The player opened the game on `b` when it has as many marks as the others. */
  predicate Opened(b: Board, sym: Option<Symbol>)
  {
    Tally(b, sym).0 == Tally(b, sym).1
  }

  /**
   * The colours must be exchanged when the opener does not hold Cross: the
   * player opened but plays Circle, or the other side opened and the
   * player holds Cross.
   */
  predicate NeedsSwap(b: Board, sym: Option<Symbol>)
  {
    if Opened(b, sym) then sym == Some(Circle) else sym == Some(Cross)
  }

  function Normalise(b: Board, sym: Option<Symbol>): Board
  {
    if NeedsSwap(b, sym) then SwapAll(b) else b
  }

  /** Exchanging the colours exchanges the counts of the two marks. */
  lemma {:induction false} SwapCounts(b: Board)
    ensures multiset(SwapAll(b))[Cross] == multiset(b)[Circle]
    ensures multiset(SwapAll(b))[Circle] == multiset(b)[Cross]
    ensures multiset(SwapAll(b))[Empty] == multiset(b)[Empty]
    decreases |b|
  {
    if b != [] {
      var init, last := b[..|b| - 1], b[|b| - 1];
      SwapCounts(init);
      assert b == init + [last];
      assert SwapAll(b) == SwapAll(init) + [SwapSymbol(last)];
    }
  }

  /**
   * On a board where the player `me` is to move (it has as many marks as
   * the other side, or one fewer) normalisation yields a board on which
   * Cross opened, and the player's marks become Cross exactly when it
   * opened.
   */
  lemma NormaliseCrossOpens(b: Board, me: Symbol)
    requires me != Empty
    requires multiset(b)[me] == multiset(b)[Opponent(me)] || multiset(b)[Opponent(me)] == multiset(b)[me] + 1
    ensures var n := Normalise(b, Some(me));
      multiset(n)[Cross] == multiset(n)[Circle] || multiset(n)[Cross] == multiset(n)[Circle] + 1
    ensures var n := Normalise(b, Some(me));
      var own := if Opened(b, Some(me)) then Cross else Circle;
      |n| == |b| && forall i :: 0 <= i < |b| ==> (b[i] == me <==> n[i] == own)
  {
    var n := Normalise(b, Some(me));
    TallyCounts(b, Some(me));
    SwapCounts(b);
    if NeedsSwap(b, Some(me)) {
      forall i | 0 <= i < |b|
        ensures b[i] == SwapSymbol(n[i])
      {
      }
    }
  }
}
