# Squabble board geometry and move handling, in Dafny

Squabble is a multiplayer word game played on a 15×15 grid. This project models two
pieces of its game logic and proves properties of them.

**Board geometry** (module `Board`, `board.dfy`):
- The four bonus-cell lists (triple word, double word, triple letter, double letter) are
  built by the same comprehensions the source uses, written as small list builders.
- `GetSpecial` classifies a coordinate by testing the lists in order. A later match
  overwrites an earlier one.
- `GetBoard` builds the 225 tiles with two nested loops. The loops live in
  `BuildTiles`, which takes the classifier as a parameter; `GetBoard` calls it with
  `GetSpecial`.
- Each list is characterised by arithmetic on the coordinate and compared with the
  standard layout written out cell by cell. This gives:
  - the distinct-cell counts 8 / 17 / 12 / 24;
  - that the lists are pairwise disjoint, so the overwrite order never takes effect;
  - that the lists are on the grid and symmetric under exchanging x and y;
  - that the centre is a double-word cell.

**Move handling** (module `Move`, `move.dfy`): the pure logic of the move endpoint's
POST handler, over a stored `Player` (seat order and rack) and `Game` (seat whose turn it
is, bag of free letters, number of players, words of the moves in creation order, and
finished flag).
- An out-of-turn move is refused.
- Otherwise the move is recorded, and each character of the word removes the first equal
  letter from the rack. A `_` removes nothing, and neither does a letter the rack lacks.
- The rack is refilled from the bag by a loop whose bound `min(free spots, bag size)`
  re-reads the bag as it shrinks. So it draws min(max(0, 7 − |rack|), ⌈|bag| / 2⌉) letters:
  with seven free spots and five letters in the bag, only three are drawn.
- The game finishes when the rack and the bag are both empty. It also finishes when the
  move is a pass and so are the last 2 × (number of players) moves.
- Every accepted move stores the move and the refilled rack. A finishing move then updates
  only the game's finished flag. Any other move stores the new bag and hands the turn to
  the next seat, wrapping to 0.
- Each step of the handler is a method proved equal to a specification function:
  - `RemovePlayedLetters` to `RemovePlayed`;
  - `Refill` to `Refilled`;
  - `Settle` to `Conclude`;
  - `Post` to `Transition`.
- Lemmas over these functions state what the handler promises.

The random draw `Math.floor(Math.random() * n)` becomes a parameter
`pick: (nat, nat) -> nat`, which maps the iteration number and the bag size to any
position below the bag size (`ValidPicker`). Every property holds for every such choice.

## Model

| member | source | states |
|---|---|---|
| Board.GetSpecial | src/lib/board.ts:57-72 | no bonus exactly when the coordinate is on none of the four lists; otherwise the kind of the last list in the order triple word, double word, triple letter, double letter that holds it |
| Board.GetSpecialIsMembership | src/lib/board.ts:57-72 | because no cell is on two lists, a coordinate gets a kind exactly when it is on that kind's list |
| Board.AtMostOneList | src/lib/board.ts:59-70 | each later membership test of the classifier fails once an earlier one succeeded |
| Board.BuildTiles | src/lib/board.ts:11-20 | the nested loops push 225 tiles; tile k has coordinate (k / 15, k % 15), lies on the grid and sits at IndexOf of its coordinate; every grid coordinate appears, at IndexOf; each tile carries the classification of its own coordinate |
| Board.GetBoard | src/lib/board.ts:11-20 | 225 tiles, tile k at coordinate (k / 15, k % 15), on the grid and at IndexOf of its coordinate, so every grid coordinate appears exactly once; each tile's bonus is GetSpecial of its own coordinate |
| Board.BoardPrefixAt | src/lib/board.ts:13-17 | after n pushes, the tile at position k holds coordinate (k / 15, k % 15) and its classification |
| Board.CoordinateAtIndexOf | src/lib/board.ts:13-15 | on the grid, the position x·15 + y of a coordinate is in 0..224 and maps back to the coordinate |
| Board.IndexOfCoordinateAt | src/lib/board.ts:13-15 | every position 0..224 maps to a grid coordinate whose position is that number |
| Board.Row | src/lib/board.ts:23 | the inner flatMap for a fixed y: one cell per listed x |
| Board.Product | src/lib/board.ts:22-23 | the nested flatMap: one cell per pair, |ys| × |xs| entries |
| Board.ExcludeCentre | src/lib/board.ts:24 | the centre filter: never longer than its input, and (7, 7) is not in the result |
| Board.ExcludeCorners | src/lib/board.ts:33 | the corner filter: never longer than its input |
| Board.TripleWordTiles | src/lib/board.ts:22-24 | the triple-word list, built from {0, 7, 14}² with the centre filtered out; at most 9 entries |
| Board.DoubleWordTiles | src/lib/board.ts:26-29 | the double-word list, two diagonal cells per step; 18 entries |
| Board.TripleLetterLength | src/lib/board.ts:31-33 | the triple-letter list, built from {1, 5, 9, 13}² with the outer corners filtered out, has at most 16 entries |
| Board.DoubleLetterTiles | src/lib/board.ts:35-55 | the double-letter list, six edge and axis cells for each of 3 and 11 followed by eight ring cells for each of 6 and 8; 28 entries |
| Board.RowMembership | src/lib/board.ts:23 | the inner flatMap yields exactly the cells with an x from the list and the given y |
| Board.ProductMembership | src/lib/board.ts:22-23 | the nested flatMap yields exactly the cells with y from the outer list and x from the inner list |
| Board.ExcludeCentreMembership | src/lib/board.ts:24 | the filter keeps exactly the cells other than (7, 7) |
| Board.ExcludeCornersMembership | src/lib/board.ts:33 | the filter keeps exactly the cells that do not have both coordinates in {1, 13} |
| Board.Diagonals | src/lib/board.ts:26-29 | two entries per listed number |
| Board.DiagonalsMembership | src/lib/board.ts:26-29 | the cells (n, n) and (n, 14 − n) for the listed n, and no others |
| Board.EdgePoints | src/lib/board.ts:35-43 | six entries per listed number |
| Board.EdgePointsMembership | src/lib/board.ts:35-43 | the cells with one coordinate in {0, 7, 14} and the other a listed number, and no others |
| Board.RingPoints | src/lib/board.ts:45-54 | eight entries per listed number |
| Board.RingPointsMembership | src/lib/board.ts:45-54 | the cells with one coordinate a listed number and the other in {2, 6, 8, 12}, and no others |
| Board.TripleWordMembership | src/lib/board.ts:22-24 | the triple-word list is {0, 7, 14}² without the centre |
| Board.DoubleWordMembership | src/lib/board.ts:26-29 | the double-word list is the two diagonals at steps 1, 2, 3, 4, 7, 10, 11, 12, 13 |
| Board.TripleLetterMembership | src/lib/board.ts:31-33 | the triple-letter list is {1, 5, 9, 13}² without the four cells with both coordinates in {1, 13} |
| Board.DoubleLetterMembership | src/lib/board.ts:35-55 | the double-letter list is the edge-and-axis cells at offsets 3 and 11 together with the ring cells at 6 and 8 |
| Board.KindMembership | src/lib/board.ts:22-55 | each list holds exactly the cells of its arithmetic pattern |
| Board.CellsAreLayout | src/lib/board.ts:22-55 | the cells each list names are exactly the standard layout written out cell by cell |
| Board.TripleWordCount | src/lib/board.ts:22-24 | the triple-word list names 8 distinct cells |
| Board.DoubleWordCount | src/lib/board.ts:26-29 | the double-word list has 18 entries naming 17 distinct cells |
| Board.TripleLetterCount | src/lib/board.ts:31-33 | the triple-letter list names 12 distinct cells |
| Board.DoubleLetterCount | src/lib/board.ts:35-55 | the double-letter list has 28 entries naming 24 distinct cells |
| Board.BonusListsDisjoint | src/lib/board.ts:22-55 | no cell is on two different lists |
| Board.BonusCellsOnGrid | src/lib/board.ts:22-55 | every listed cell lies on the 15×15 grid |
| Board.BonusListsSymmetric | src/lib/board.ts:22-55 | each list holds (x, y) exactly when it holds (y, x) |
| Board.CentreIsDoubleWord | src/lib/board.ts:22-29 | the centre is filtered out of the triple-word list, is on the double-word list, and is classified double word |
| Move.FindIndex | src/routes/api/move/+server.ts:42 | −1 exactly when the letter is not on the rack; otherwise a position holding the letter with no earlier copy |
| Move.RemoveLetter | src/routes/api/move/+server.ts:41-45 | a skip marker, or a letter the rack does not hold, leaves the rack unchanged; otherwise the first copy of the letter is cut out and the rest keep their order |
| Move.RemovePlayed | src/routes/api/move/+server.ts:40-47 | the rack after the forEach over the word: never longer than before, and shorter by at most the number of placed letters |
| Move.Placed | src/routes/api/move/+server.ts:41 | the letters a word takes from the rack are its characters other than the skip marker, with their counts |
| Move.SkipsRemoveNothing | src/routes/api/move/+server.ts:41 | a word of skip markers only, the empty word included, leaves the rack as it is |
| Move.RemovePlayedMultiset | src/routes/api/move/+server.ts:40-47 | after the forEach, the rack is the old rack minus the placed letters as multisets, so it is a sub-multiset of the old rack |
| Move.RemovePlayedSubsequence | src/routes/api/move/+server.ts:40-47 | after the forEach, the letters left keep their relative order |
| Move.RemovePlayedLetters | src/routes/api/move/+server.ts:38-47 | the splicing loop computes RemovePlayed, with the multiset and order properties above |
| Move.Draw | src/routes/api/move/+server.ts:52-56 | the refill loop from iteration i on: the rack and bag together keep their size, and the bag never grows |
| Move.Refilled | src/routes/api/move/+server.ts:51-56 | the rack and bag after the refill loop: together they keep their size, and the bag never grows |
| Move.DrawSizes | src/routes/api/move/+server.ts:52-56 | from iteration i on, the loop moves max(0, min(spots − i, ⌈(bag − i) / 2⌉)) letters from the bag to the rack |
| Move.DrawConserves | src/routes/api/move/+server.ts:52-56 | the loop appends to the rack, and the appended letters together with the remaining bag are the old bag |
| Move.RefillCount | src/routes/api/move/+server.ts:51-56 | the refill draws exactly min(max(0, 7 − rack size), ⌈bag size / 2⌉) letters |
| Move.RefillConserves | src/routes/api/move/+server.ts:51-56 | the rack keeps its letters in front; rack + bag is the same multiset before and after; the bag shrinks by what the rack gains; a rack of at most 7 stays at most 7 |
| Move.HalfBagDrawn | src/routes/api/move/+server.ts:52 | with an empty rack and five letters in the bag, three are drawn and two stay behind |
| Move.RefilledEmpty | src/routes/api/move/+server.ts:51-70 | after the refill the rack and bag are both empty exactly when both were empty before it |
| Move.Refill | src/routes/api/move/+server.ts:49-56 | the push-and-splice loop computes Refilled, conserving rack + bag and drawing the count above |
| Move.LastTwoRounds | src/routes/api/move/+server.ts:78-79 | a suffix of the moves, of length min(number of moves, 2 × players); with no players, all moves |
| Move.AllPasses | src/routes/api/move/+server.ts:80 | the `every` test that each move is a pass; when it holds of a list it holds of every later part of it |
| Move.TrailingPasses | src/routes/api/move/+server.ts:80 | the number of passes at the end of the move list, at most the number of moves |
| Move.TrailingPassesSuffix | src/routes/api/move/+server.ts:80 | the last n moves are all passes exactly when at least n trailing moves are passes |
| Move.PassRule | src/routes/api/move/+server.ts:73-83 | the pass test holds exactly when the trailing passes cover the last two rounds; with no players, exactly when every move is a pass |
| Move.GameFinished | src/routes/api/move/+server.ts:65-83 | a move finishes the game exactly when rack and bag are both empty after the refill, or it is a pass and the trailing passes cover the last two rounds |
| Move.NextPlayerIndex | src/routes/api/move/+server.ts:92-95 | for a seat in range, the next seat is in range and is (seat + 1) mod players |
| Move.Conclude | src/routes/api/move/+server.ts:85-100 | an accepted move stores the refilled rack, the history and the player count; the flag is set exactly when it was set or a rule fires; the turn index is kept or moves to the next seat, and the bag is kept or replaced by the refilled one |
| Move.Transition | src/routes/api/move/+server.ts:27-100 | a move is refused exactly when it is out of turn; an accepted move adds one move to the history and never enlarges the stored bag |
| Move.Settle | src/routes/api/move/+server.ts:65-100 | the flag-and-branch code stores exactly what Conclude describes |
| Move.Post | src/routes/api/move/+server.ts:27-100 | the handler's statements produce exactly Transition |
| Move.TurnCheck | src/routes/api/move/+server.ts:27-36 | a move is refused exactly when the game's turn index differs from the player's seat; an accepted move is appended to the history |
| Move.FinishRule | src/routes/api/move/+server.ts:65-83 | an accepted move leaves the game finished exactly when it already was, or the move emptied the rack with the bag already empty, or it is a pass whose trailing passes cover the last two rounds |
| Move.MoveFinishes | src/routes/api/move/+server.ts:65-85 | the branch test: a rule fires on the rack and bag after the refill; for a move in turn, it leaves the game flagged finished |
| Move.FinishingMoveKeepsTurnAndBag | src/routes/api/move/+server.ts:85-90 | when a rule fires on the move, finished or not before, the flag is set and neither the turn index nor the stored bag changes |
| Move.ContinuingMoveConserves | src/routes/api/move/+server.ts:49-99 | when no rule fires on the move, finished or not before, the flag stays as it was and the stored rack and bag hold the old rack minus the placed letters plus the old bag |
| Move.ContinuingMoveAdvancesTurn | src/routes/api/move/+server.ts:90-99 | when no rule fires on the move, finished or not before, the refilled bag is stored and the turn passes to the next seat, (seat + 1) mod players when the seat is in range |
| Move.FinishedGameStillAdvances | src/routes/api/move/+server.ts:85-99 | a move on a game already marked finished, with no rule firing, still hands the turn on: seat 0 of 2 becomes seat 1 |
| Move.FinishingMoveDuplicatesDrawn | src/routes/api/move/+server.ts:49-89 | a finishing pass that drew the bag's last letter stores a 3-letter rack holding it while the stored bag still holds it too |
| Move.RackStaysWithinSize | src/routes/api/move/+server.ts:49-63 | an accepted move keeps a rack of at most 7 letters at most 7 |

## Left out

- Database reads and writes, JSON responses and the 500 replies for a missing player or
  game are not modelled: the handler works on a given `Player` and `Game`. The refusal
  of an out-of-turn move is kept, as `Rejected`.
- `Math.random()` becomes the `pick` parameter. Uniformity of the draw is not modelled.
- The `created_at` sort of the moves is not modelled. The history is taken already in
  creation order, and the new move is appended last.
- Only the words of the moves are kept. Player ids, game ids, start cells and
  orientation play no part in this logic.
- A rack entry is a single character. A stored entry of several characters, which the
  source would never match, is not represented.
- The rack and the bag are sequence values, not arrays changed in place. The source
  splices the bag array it read from the game record. The model reproduces the effect of
  that aliasing: the refilled bag is stored only by a move that does not finish the game.
- Two moves submitted at the same time, and the lack of a transaction, are not
  modelled: each request is one atomic step.
- Board reconstruction, word extraction, scoring and letter values are not part of this
  model; neither are the letter bag, the new-game draw, sign-in and the build configuration.
- The finished flag is not checked on entry, because the handler does not check it either.
- A word is split into `char` values, which are Unicode scalar values. The source's
  `split('')` yields UTF-16 code units, so the two differ on characters outside the Basic
  Multilingual Plane. Board letters are all inside it.
- Move.ContinuingMoveConserves: conservation is stated only for moves on which no game-end
  rule fires. A finishing move stores the refilled rack but keeps the old bag, so letters
  drawn on that move appear in both (Move.FinishingMoveDuplicatesDrawn shows one such move).
