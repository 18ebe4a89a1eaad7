/**
 * The symmetries of the 3x3 board (rotations and reflections) and the colour
 * swap. The concrete transform class is not part of this model; here each
 * symmetry is a permutation of the nine cells, which gives exactly the
 * properties the agents rely on: applying one yields a nine-cell board, and
 * a move on the transformed board maps back to the cell it came from.
 */
module Transforms {
  import opened Boards

  datatype Transform =
    | Identity | Rotate90 | Rotate180 | Rotate270
    | MirrorRows | MirrorColumns | MirrorDiagonal | MirrorAntiDiagonal

  /** The transforms in enumeration order; the identity comes first. */
  const AllTransforms: seq<Transform> :=
    [Identity, Rotate90, Rotate180, Rotate270,
     MirrorRows, MirrorColumns, MirrorDiagonal, MirrorAntiDiagonal]

  /** Cell `i` of the transformed board shows cell `Source(t)[i]` of the original. */
  function Source(t: Transform): (p: seq<nat>)
    ensures |p| == 9 && forall i :: 0 <= i < 9 ==> p[i] < 9
  {
    match t
    case Identity => [0, 1, 2, 3, 4, 5, 6, 7, 8]
    case Rotate90 => [6, 3, 0, 7, 4, 1, 8, 5, 2]
    case Rotate180 => [8, 7, 6, 5, 4, 3, 2, 1, 0]
    case Rotate270 => [2, 5, 8, 1, 4, 7, 0, 3, 6]
    case MirrorRows => [2, 1, 0, 5, 4, 3, 8, 7, 6]
    case MirrorColumns => [6, 7, 8, 3, 4, 5, 0, 1, 2]
    case MirrorDiagonal => [0, 3, 6, 1, 4, 7, 2, 5, 8]
    case MirrorAntiDiagonal => [8, 5, 2, 7, 4, 1, 6, 3, 0]
  }

  /** The board as seen through transform `t`. */
  function Apply(b: Board, t: Transform): (r: Board)
    requires |b| == 9
    ensures |r| == 9
    ensures forall i :: 0 <= i < 9 ==> r[i] == b[MapMove(i, t)]
  {
    var p := Source(t);
    [b[p[0]], b[p[1]], b[p[2]], b[p[3]], b[p[4]], b[p[5]], b[p[6]], b[p[7]], b[p[8]]]
  }

  /** A cell index of the transformed board mapped back to the original board. */
  function MapMove(i: nat, t: Transform): (m: nat)
    requires i < 9
    ensures m < 9
  {
    Source(t)[i]
  }

  /** Every symmetry keeps the centre in place and moves no other cell there. */
  lemma CentreFixed(t: Transform, i: nat)
    requires i < 9
    ensures MapMove(i, t) == 4 <==> i == 4
  {
    match t
    case Identity =>
    case Rotate90 =>
    case Rotate180 =>
    case Rotate270 =>
    case MirrorRows =>
    case MirrorColumns =>
    case MirrorDiagonal =>
    case MirrorAntiDiagonal =>
  }

  /** The cell of the transformed board that shows cell 0 of the original. */
  lemma CornerSource(t: Transform) returns (i: nat)
    ensures i < 9 && MapMove(i, t) == 0
  {
    match t
    case Identity => i := 0;
    case Rotate90 => i := 2;
    case Rotate180 => i := 8;
    case Rotate270 => i := 6;
    case MirrorRows => i := 2;
    case MirrorColumns => i := 6;
    case MirrorDiagonal => i := 0;
    case MirrorAntiDiagonal => i := 8;
  }

  /** The symmetry that undoes `t`: the two quarter turns undo each other, every other one undoes itself. */
  function Inv(t: Transform): Transform
  {
    match t
    case Rotate90 => Rotate270
    case Rotate270 => Rotate90
    case _ => t
  }

  /** Every symmetry is listed in the enumeration order. */
  lemma Listed(t: Transform)
    ensures t in AllTransforms
  {
    match t
    case Identity =>
    case Rotate90 =>
    case Rotate180 =>
    case Rotate270 =>
    case MirrorRows =>
    case MirrorColumns =>
    case MirrorDiagonal =>
    case MirrorAntiDiagonal =>
  }

  /** Mapping a cell back through `Inv(t)` and then through `t` returns it. */
  lemma InvCell(t: Transform, i: nat)
    requires i < 9
    ensures MapMove(MapMove(i, Inv(t)), t) == i
  {
    assert i == 0 || i == 1 || i == 2 || i == 3 || i == 4 || i == 5 || i == 6 || i == 7 || i == 8;
  }

  /** `Inv(t)` undoes `t` on every board. */
  lemma ApplyInverse(b: Board, t: Transform)
    requires |b| == 9
    ensures Apply(Apply(b, t), Inv(t)) == b
  {
    var img := Apply(Apply(b, t), Inv(t));
    forall i | 0 <= i < 9
      ensures img[i] == b[i]
    {
      InvCell(t, i);
    }
  }

  function SwapSymbol(s: Symbol): Symbol
  {
    match s
    case Cross => Circle
    case Circle => Cross
    case Empty => Empty
  }

  /** The board with every Cross and Circle exchanged. */
  function SwapAll(b: Board): (r: Board)
    ensures |r| == |b|
    ensures forall i :: 0 <= i < |b| ==> (r[i] == Empty <==> b[i] == Empty)
    ensures forall i :: 0 <= i < |b| ==> SwapSymbol(r[i]) == b[i]
  {
    seq(|b|, i requires 0 <= i < |b| => SwapSymbol(b[i]))
  }

  /**
   * Position in AllTransforms (from `k` on) of the first transform whose
   * image of `b` is one of `keys`.
   */
  function FirstImageFrom(keys: set<Board>, b: Board, k: nat): (r: Option<nat>)
    requires |b| == 9 && k <= |AllTransforms|
    ensures r.Some? ==> k <= r.value < |AllTransforms| && Apply(b, AllTransforms[r.value]) in keys
    ensures r.Some? ==> forall j :: k <= j < r.value ==> Apply(b, AllTransforms[j]) !in keys
    ensures r.None? <==> forall j :: k <= j < |AllTransforms| ==> Apply(b, AllTransforms[j]) !in keys
    decreases |AllTransforms| - k
  {
    if k == |AllTransforms| then None
    else if Apply(b, AllTransforms[k]) in keys then Some(k)
    else FirstImageFrom(keys, b, k + 1)
  }

  function FirstImage(keys: set<Board>, b: Board): Option<nat>
    requires |b| == 9
  {
    FirstImageFrom(keys, b, 0)
  }

  /** Some symmetric image of `b` is already among `keys`. */
  predicate Known(keys: set<Board>, b: Board)
    requires |b| == 9
  {
    FirstImage(keys, b).Some?
  }

  /** A board none of whose images is among `keys` is not known. */
  lemma NoImageUnknown(keys: set<Board>, b: Board)
    requires |b| == 9 && forall t :: t in AllTransforms ==> Apply(b, t) !in keys
    ensures !Known(keys, b)
  {
    forall j | 0 <= j < |AllTransforms|
      ensures Apply(b, AllTransforms[j]) !in keys
    {
      assert AllTransforms[j] in AllTransforms;
    }
  }

  lemma ApplyIdentity(b: Board)
    requires |b| == 9
    ensures Apply(b, Identity) == b
  {
  }

  /** The first transform whose image is stored is the one a scan in enumeration order stops at. */
  lemma FirstImageAt(keys: set<Board>, b: Board, k: nat)
    requires |b| == 9 && k < |AllTransforms|
    requires Apply(b, AllTransforms[k]) in keys
    requires forall j :: 0 <= j < k ==> Apply(b, AllTransforms[j]) !in keys
    ensures FirstImage(keys, b) == Some(k)
  {
  }

  /** A board none of whose images is stored is not stored itself. */
  lemma UnknownNotStored(keys: set<Board>, b: Board)
    requires |b| == 9 && FirstImage(keys, b).None?
    ensures b !in keys
  {
    ApplyIdentity(b);
    assert AllTransforms[0] == Identity;
  }
}
