# Tic-tac-toe agents: MENACE and perfect negamax

A Dafny model of the two game-playing agents of the tic-tac-toe project and of the
player base they share.

* **Player** (`player.dfy`, module `Players`): every agent holds a mark (`symbol`), set
  from outside. Two players are equal exactly when their marks are equal.
* **Matchbox** (`matchbox.dfy`, module `Matchboxes`): a MENACE box holds nine weights
  ("beats"), one per cell.
  * A new box gets `INIT_BEATS` for each legal move.
  * `move` draws a cell with probability proportional to its beats.
  * `add` adds or removes beats on one cell, never going below zero.
  * `dead` tells whether no positive weight is left.
* **PlayerMenace** (`menace.dfy`, module `Menace`, with the value-level specification in
  `menace_store.dfy`, module `MenaceSpec`): the reinforcement learner.
  * At construction it enumerates the game depth-first from the empty board, with Cross
    moving first. It stores one box per board, skipping any board one of whose eight
    symmetric images is already stored, and does not expand such a board. So the store
    holds one board per symmetry class.
  * To move, it dies if the empty-board box is dead, or if all three opening-reply boxes
    (a lone Cross at 0, 1 or 4) are dead.
  * Otherwise it exchanges the colours when needed so that Cross is the opener. It then
    looks up the first stored symmetric image, draws a cell from that box, records
    (box, cell), and maps the cell back through the symmetry.
  * At the end of a game every recorded cell gets one reward: the tie reward, the win
    reward, or -1 for a loss. Then the record is cleared.
* **PlayerNegamax** (`negamax.dfy`, module `Negamax`): the perfect player.
  * It runs full-depth negamax with alpha-beta pruning, placing and taking back marks on
    the board in place.
  * It plays one of the root moves whose value is maximal.
* Board and symmetries (`board.dfy`, module `Boards`; `transform.dfy`, module
  `Transforms`): the board is a sequence of nine cells.
  * The board class, the win test and the transform class are not part of this model.
  * The winner is defined by the eight lines of three cells.
  * The eight symmetries are given as cell permutations, identity first.

The specification of each imperative operation is a function on values:

* `Search`/`SearchAll` give the keys the enumeration stores.
* `Seed` gives a new box.
* `Reinforce` gives the weights after learning.
* `Value`/`BestScore`/`BestMoves` give plain negamax and its argmax set.

Each method is proved against its function, and the functions' properties are proved as
lemmas. The random number generator becomes a parameter:

* `seed` for a matchbox draw: the draw is `1 + seed % total`.
* `pick` for the negamax tie-break: the move is `best[pick % |best|]`.

## Model

| member | source | states |
|---|---|---|
| Matchboxes.Matchbox.constructor | src/tk/borroot/player/reinforcement/menace/Matchbox.java:20-33 | the nine weights are the zero array with `initBeats` added at every listed move (`Fill`) |
| Matchboxes.FillCounts | src/tk/borroot/player/reinforcement/menace/Matchbox.java:29-33 | a new box holds, at each cell, `initBeats` times the number of times the cell is listed (so `initBeats` on each legal move, 0 elsewhere) |
| Matchboxes.Matchbox.Move | src/tk/borroot/player/reinforcement/menace/Matchbox.java:43-59 | fails exactly when the weights total 0 or less; otherwise returns the index where the running sum first reaches the draw `1 + seed % total`, and that index has a positive weight; changes no weight (no `modifies`) |
| Matchboxes.DrawUnique | src/tk/borroot/player/reinforcement/menace/Matchbox.java:50-56 | with non-negative weights at most one index brackets a draw: the selected index is unique |
| Matchboxes.DrawsForIndex | src/tk/borroot/player/reinforcement/menace/Matchbox.java:50-56 | of the draws 1..total exactly `w[i]` select index `i`: a move's chance is its share of the beats, and a zero-weight cell is never drawn |
| Matchboxes.Matchbox.Add | src/tk/borroot/player/reinforcement/menace/Matchbox.java:67-73 | slot `move` becomes `max(0, old + b)`, the other eight slots are unchanged |
| Matchboxes.AddKeepsNonNegative | src/tk/borroot/player/reinforcement/menace/Matchbox.java:67-73 | adding to non-negative weights keeps all of them non-negative and leaves the other slots alone |
| Matchboxes.Matchbox.Dead | src/tk/borroot/player/reinforcement/menace/Matchbox.java:80-87 | true exactly when no weight is positive |
| Matchboxes.DeadIffExhausted | src/tk/borroot/player/reinforcement/menace/Matchbox.java:80-87 | for non-negative weights: dead, a total of zero and a failing draw are the same condition |
| Menace.PlayerMenace.constructor | src/tk/borroot/player/reinforcement/menace/PlayerMenace.java:43-49 | the keys are exactly what the enumeration from the empty board with Cross to move stores (`Built`: `Search({}, empty board, true)`), one board per symmetry class; every box holds its seed weights; the empty board and the openings at 0, 1 and 4 have boxes; the record is empty |
| Menace.PlayerMenace.FindImage | src/tk/borroot/player/reinforcement/menace/PlayerMenace.java:59-64 | the position of the first transform, in enumeration order, whose image of the board is stored, or none |
| Menace.PlayerMenace.ProcessState | src/tk/borroot/player/reinforcement/menace/PlayerMenace.java:58-67 | returns whether some image of the board was stored; if so the store is unchanged, otherwise exactly one entry is added, keyed by the board, holding a fresh box seeded from the board's legal moves; existing entries are kept |
| Menace.PlayerMenace.StoreNew | src/tk/borroot/player/reinforcement/menace/PlayerMenace.java:65 | an unstored board gets one new box with its seed weights and nothing else changes |
| Menace.PlayerMenace.NewBox | src/tk/borroot/player/reinforcement/menace/PlayerMenace.java:65 | a box built from the board's legal moves holds `initBeats` on every free cell and 0 elsewhere |
| MenaceSpec.SeedFromMoves | src/tk/borroot/player/reinforcement/menace/PlayerMenace.java:65 | filling a box from the move list of a board gives exactly the seed weights of the board |
| Menace.PlayerMenace.SearchStates | src/tk/borroot/player/reinforcement/menace/PlayerMenace.java:78-92 | the new keys are `Search(old keys, board, onturn)`; entries are only added, never replaced; the board is restored |
| Menace.PlayerMenace.ExploreMoves | src/tk/borroot/player/reinforcement/menace/PlayerMenace.java:84-91 | exploring the legal moves in order produces `SearchAll` of them; the board is restored |
| Menace.PlayerMenace.ExploreMove | src/tk/borroot/player/reinforcement/menace/PlayerMenace.java:87-89 | placing Cross when `onturn` (Circle otherwise), enumerating with `onturn` flipped, and clearing the cell again produces `Search` of the child; the board is restored |
| Menace.PlayerMenace.Put | src/tk/borroot/player/reinforcement/menace/PlayerMenace.java:87 | setting one cell changes that cell only and no box |
| MenaceSpec.SearchGrows | src/tk/borroot/player/reinforcement/menace/PlayerMenace.java:78-92 | the enumeration only adds keys; it adds the board itself exactly when no image was stored, leaves the keys unchanged when one was, and otherwise adds only boards with more marks |
| MenaceSpec.SearchAllGrows | src/tk/borroot/player/reinforcement/menace/PlayerMenace.java:86-90 | exploring a list of moves only adds keys, all with more marks than the board |
| MenaceSpec.SearchNoTwins | src/tk/borroot/player/reinforcement/menace/PlayerMenace.java:69-92 | starting from keys with one board per symmetry class (no key is the image of another key under any symmetry), the enumeration keeps that property |
| MenaceSpec.AddUnseen | src/tk/borroot/player/reinforcement/menace/PlayerMenace.java:59-65 | inserting a board none of whose images is a key keeps one board per symmetry class |
| Transforms.ApplyInverse | src/tk/borroot/player/reinforcement/menace/PlayerMenace.java:59-64 | every symmetry has an inverse among the symmetries that maps each transformed board back to the original |
| MenaceSpec.BlankOpenings | src/tk/borroot/player/reinforcement/menace/PlayerMenace.java:48 | the keys of the enumeration from the empty board include the four opening boards and hold one board per symmetry class |
| MenaceSpec.OpeningBoxesStored | src/tk/borroot/player/reinforcement/menace/PlayerMenace.java:135-153 | the enumeration from the empty board stores the empty board and the boards with a lone Cross at 0, 1 and 4, the four boxes the death check reads |
| MenaceSpec.OpeningImages | src/tk/borroot/player/reinforcement/menace/PlayerMenace.java:59-64 | every symmetry fixes the empty board and the centre opening, maps the edge opening to an edge opening and the corner opening away from the empty board |
| Transforms.FirstImageFrom | src/tk/borroot/player/reinforcement/menace/PlayerMenace.java:59-64 | the first position from `k` whose image is a key, with no earlier image a key; none exactly when no image from `k` is a key |
| Transforms.UnknownNotStored | src/tk/borroot/player/reinforcement/menace/PlayerMenace.java:59-65 | a board none of whose images is stored is not stored itself (the identity comes first), so the insert adds a new key |
| MenaceSpec.TallyCounts | src/tk/borroot/player/reinforcement/menace/PlayerMenace.java:100-111 | the per-cell tally counts the player's own marks and the other mark; a player without a mark counts every mark as the other side's |
| Menace.PlayerMenace.First | src/tk/borroot/player/reinforcement/menace/PlayerMenace.java:100-111 | true exactly when the count of this player's marks equals the count of other non-empty cells |
| Menace.PlayerMenace.NeedsSwap | src/tk/borroot/player/reinforcement/menace/PlayerMenace.java:121-127 | true exactly when (opened and holds Circle) or (did not open and holds Cross) |
| MenaceSpec.SwapCounts | src/tk/borroot/player/reinforcement/menace/PlayerMenace.java:162 | exchanging the colours exchanges the numbers of Crosses and Circles and keeps the empty cells |
| MenaceSpec.NormaliseCrossOpens | src/tk/borroot/player/reinforcement/menace/PlayerMenace.java:113-127 | when the player is to move, the normalised board is one on which Cross opened, and the player's marks become Cross exactly when it opened |
| Menace.PlayerMenace.MenaceDied | src/tk/borroot/player/reinforcement/menace/PlayerMenace.java:135-153 | true exactly when the empty-board box is dead, or the boxes of a lone Cross at 0, 1 and 4 are all dead |
| Menace.PlayerMenace.Move | src/tk/borroot/player/reinforcement/menace/PlayerMenace.java:155-175 | fails as died exactly when MENACE has died, and then records nothing; otherwise the move chosen on the normalised board (`Chosen`); the store is unchanged; a non-negative answer is a free cell of the board |
| Menace.PlayerMenace.Choose | src/tk/borroot/player/reinforcement/menace/PlayerMenace.java:161-174 | colours are exchanged exactly when `NeedsSwap`, then the move is chosen on the result; a non-negative answer is a free cell of the given board |
| Menace.PlayerMenace.ChooseOn | src/tk/borroot/player/reinforcement/menace/PlayerMenace.java:164-174 | the first stored image is drawn from; with no stored image the answer is -1 and nothing is recorded |
| Menace.PlayerMenace.DrawFrom | src/tk/borroot/player/reinforcement/menace/PlayerMenace.java:168-171 | an empty box gives no move and records nothing; otherwise exactly one pair (that box, the selected free slot) is appended and the slot mapped back through the transform is returned |
| Menace.PlayerMenace.Record | src/tk/borroot/player/reinforcement/menace/PlayerMenace.java:170 | the record grows by exactly the drawn pair |
| Menace.PlayerMenace.Reward | src/tk/borroot/player/reinforcement/menace/PlayerMenace.java:179-180 | the tie reward when there is no winner, the win reward when the winner holds this player's mark, -1 when it holds another |
| Menace.PlayerMenace.Learn | src/tk/borroot/player/reinforcement/menace/PlayerMenace.java:177-187 | the weights become `Reinforce(old weights, old record, reward)` with the reward the tie reward, the win reward when the winner equals this player, or -1; the record is emptied; the store's keys and boxes are kept |
| Menace.PlayerMenace.ReinforceAll | src/tk/borroot/player/reinforcement/menace/PlayerMenace.java:183-185 | adding the reward to every recorded pair in order gives `Reinforce` of the record, and every recorded pair names a stored box and slot |
| Menace.PlayerMenace.LearnStep | src/tk/borroot/player/reinforcement/menace/PlayerMenace.java:184 | one `add` changes the weights of one box, as one step of `Reinforce` prescribes, and keeps every box valid |
| Menace.PlayerMenace.Forget | src/tk/borroot/player/reinforcement/menace/PlayerMenace.java:186 | the record is emptied and no weight changes |
| MenaceSpec.ReinforceUntouched | src/tk/borroot/player/reinforcement/menace/PlayerMenace.java:183-185 | a slot that no recorded pair names keeps its weight |
| MenaceSpec.ReinforceOnce | src/tk/borroot/player/reinforcement/menace/PlayerMenace.java:183-185 | a slot recorded once gains exactly the reward, clamped at zero |
| MenaceSpec.ReinforceTouchedNonNegative | src/tk/borroot/player/reinforcement/menace/PlayerMenace.java:183-185 | every recorded slot ends non-negative |
| MenaceSpec.ReinforceMonotone | src/tk/borroot/player/reinforcement/menace/PlayerMenace.java:179-185 | a reward never lowers a weight, a punishment never raises a non-negative one |
| Negamax.Heuristic | src/tk/borroot/player/perfect/PlayerNegamax.java:29-35 | 1 exactly when the winner is the player's mark, -1 exactly when there is a winner with another mark, so 0 when nobody has won |
| Negamax.ValueRange | src/tk/borroot/player/perfect/PlayerNegamax.java:46-66 | the plain negamax value is in [-1, 1] for colour 1 or -1 |
| Negamax.PlayerNegamax.NegamaxAlphaBeta | src/tk/borroot/player/perfect/PlayerNegamax.java:46-66 | on a terminal board returns `color * heuristic`; otherwise a fail-soft bound of plain negamax for the window (exact inside it); result in [-1, 1]; the board is restored |
| Negamax.PlayerNegamax.SearchMoves | src/tk/borroot/player/perfect/PlayerNegamax.java:51-65 | the pruned move loop returns a fail-soft bound of the best score over all legal moves; the board is restored |
| Negamax.PlayerNegamax.SearchMove | src/tk/borroot/player/perfect/PlayerNegamax.java:54-57 | placing the mover's mark (the player's for colour 1, the other for -1), searching with the negated window and clearing the cell gives a fail-soft bound of that move's score; the board is restored |
| Negamax.WindowStep | src/tk/borroot/player/perfect/PlayerNegamax.java:59-63 | one round of the pruned loop keeps the fail-soft relation between the running value and the exact best score, whether or not it cuts off |
| Negamax.BestScorePrefix | src/tk/borroot/player/perfect/PlayerNegamax.java:59-63 | a cut-off after a prefix of the moves is still a lower bound of the best score over all of them |
| Negamax.BestScoreIsUpper | src/tk/borroot/player/perfect/PlayerNegamax.java:75-89 | no move scores above the best score |
| Negamax.BestScoreIsReached | src/tk/borroot/player/perfect/PlayerNegamax.java:75-89 | some move reaches the best score |
| Negamax.ArgmaxStep | src/tk/borroot/player/perfect/PlayerNegamax.java:82-88 | a higher value restarts the best moves with this move, an equal one appends it, a lower one changes nothing: the running maximum and its tie list stay exact |
| Negamax.TiesMembers | src/tk/borroot/player/perfect/PlayerNegamax.java:80-88 | the tie list holds exactly the moves whose score is the target |
| Negamax.BestMovesAreArgmax | src/tk/borroot/player/perfect/PlayerNegamax.java:80-92 | the best moves are exactly the legal moves no other legal move beats, and there is one when the board is not full |
| Negamax.PlayerNegamax.Move | src/tk/borroot/player/perfect/PlayerNegamax.java:68-93 | returns the `pick % n`-th of the n best moves in enumeration order, an empty cell in [0, 8]; the board is restored |
| Negamax.PlayerNegamax.Learn | src/tk/borroot/player/perfect/PlayerNegamax.java:95-98 | learning changes nothing: the player and its mark are unchanged |
| Boards.MovesComplete | src/tk/borroot/player/perfect/PlayerNegamax.java:74 | the legal moves are every empty cell, in increasing order |
| Boards.MovesOnce | src/tk/borroot/player/reinforcement/menace/PlayerMenace.java:65 | each empty cell is listed once and no other cell is listed |
| Boards.NotFullHasMove | src/tk/borroot/player/perfect/PlayerNegamax.java:74-92 | a board that is not full has a legal move |
| Players.Player.SetSymbol | src/tk/borroot/player/Player.java:44-55 | `getSymbol` afterwards returns the mark just set |
| Players.EqualsBySymbol | src/tk/borroot/player/Player.java:57-63 | a player equals an object exactly when it is a player with the same mark; anything else is unequal |
| Players.EqualsSymmetric | src/tk/borroot/player/Player.java:57-63 | equality is symmetric and compares the marks only |
| Players.EqualsReflexive | src/tk/borroot/player/Player.java:57-63 | every player equals itself |

## Left out

- Console prompts for `INIT_BEATS`, `REWARD_TIE` and `REWARD_WON` are I/O. They are constructor parameters here.
- `new Random()` in the matchbox draw and in the negamax tie-break is replaced by the parameters `seed` and `pick`. The model fixes which draw each value gives; it says nothing about the distribution, apart from `DrawsForIndex` counting the draws.
- The board class, `Logic.won` and the transform class are not part of this model.
  - The board is a nine-cell sequence. Its legal moves are the empty cells in index order.
  - The winner is the owner of the first complete line among the eight. This is an assumption about `Logic.won`.
  - The symmetries are the eight dihedral permutations, with the identity first in enumeration order.
  - `Transform.move` maps a cell of the transformed board back to the original cell.
  - Board keys compare by content, as the hash map of boards needs.
- Java inheritance: traits are not used. Each agent holds its `Player` part as the field `player`, and `learn` receives the winner's `Player` part.
- `HashMap` and `Vector` become a map and sequences. The recorded pairs keep their box references. The key each box is stored under is kept alongside as a ghost sequence, so learning can be stated per key.
- Exceptions become results: `Draw.NoMove` for `MoveException` in a matchbox, and `Outcome.DiedOut` / `Outcome.NoMoveLeft` for the two exceptions of MENACE's `move`.
- The abstract `move` of a player documents a result in [0..8]. MENACE answers -1 (`Outcome.Cell(-1)`) when no image of the normalised board is stored. The model keeps that answer. It does not prove that a reachable board always has a stored image.
- `toString` of all classes is left out.
- `processState` reads its board and stores a copy, so it takes the board as a value. `move` works on a copy (`clone` or `swapAll`) in the same way (`ChooseOn`).
- Matchboxes.Matchbox.Add: integers are unbounded, so 32-bit wrap-around of `moves[move] + beats` and of the total in `move` is not modelled.
- Menace.PlayerMenace.Move: requires that the empty board and the three openings have boxes. The constructor establishes this. The source would fail with a null dereference otherwise.
- Negamax.PlayerNegamax.NegamaxAlphaBeta: requires the player to hold Cross or Circle, and requires a window with `MIN_VALUE < alpha < beta <= MAX_VALUE`.
  - The source only calls it with such a window: the full root window, then negations of it.
  - With a player without a mark the source would place a null mark.
- Negamax.PlayerNegamax.Move: requires a board that is not full and a player with a mark. On a full board the source fails drawing from an empty list.
