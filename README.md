# ChessNumbers keypad counter, modelled in Dafny

ChessNumbers counts the phone numbers that chess pieces can dial on a
telephone keypad. The keypad is 4 x 3: rows `1 2 3`, `4 5 6`, `7 8 9`,
`* 0 #`.

- A number starts on a key other than `*`, `#`, `0` and `1`, so on keys
  `2` to `9`.
- It grows by one digit per move of the piece.
- It may never pass through `*` or `#`.
- It is complete when it has `phoneNumberLength` digits (7 by default).

The `Board` sweeps a cursor over the eight start cells in row-major
order. From each start cell it walks every registered `Piece` through the
move generator of its type (pawn, rook, knight, bishop, queen, king). It
adds one to that type's counter for every completed number.

The model has four modules:

- `Keypad` (keypad.dfy): the fixed keypad, the two rule sets, the start
  cells and the row-major cursor step.
- `Moves` (moves.dfy): the candidate cells each piece type tries, in the
  generator's order. It also holds the recursive count `Walks`: 1 when no
  digit is missing, otherwise the sum over the enterable candidates. Its
  companion `Settle` is the cell where the shared piece object is left.
  `Dialled` holds the digit strings themselves.
- `MoveFacts` (move_facts.dfy): lemmas about the candidate lists and the
  counts. These include the generator's quirks, which are reproduced as
  the code has them:
  - the knight's `> 0` guards;
  - the bishop's south-west ray bounded by the width;
  - queen "diagonals" computed from x alone, so queen counts include
    repeated cells;
  - the cursor wrap to (1, 0).
- `Game` (game.dfy): the classes `Piece` and `Board` with their fields.
  - `players` is a `seq<Piece>`.
  - `numbers` is an `array<int>`.
  - The cursor and the current one-digit number are fields.
  - Each method is proved against the functions of `Moves`.
  - `PhoneBook` adds `Walks(type, x, y, L - |number|)` to its own type's
    counter and to no other. It leaves the piece at `Settle(...)`.
  - `Play` adds to each counter `Count(players, u)` times the sum of the
    walks from the start cell it begins on and from every later one. From
    a fresh board that is the sum over all eight start cells.

Three consequences of the generator as written:

- A bishop has no cardinal steps, so it can complete fewer numbers than a
  king: from key `2`, at two digits, it completes 2 and the king 3
  (`BishopBelowKing`). Of the relations between the counts, the model
  proves, for every cell and length, rook ≥ king (`RookDominatesKing`),
  queen ≥ rook (`QueenDominatesRook`), hence queen ≥ king
  (`QueenDominatesKing`), and king ≥ pawn (`KingDominatesPawn`).
- Key `1` is never a start cell; the sweep begins on key `2` at (1, 0).
- The bishop's south-west ray stops before row 3, because its row is
  bounded by the width (`BishopSouthWestBound`, `BishopShape`).

## Model

| member | source | states |
|---|---|---|
| Keypad.LabelLayout | Game/Board.cs:69 | the hard-coded keypad: the top three rows carry `1`..`9` in row-major order, the bottom row `*`, `0`, `#` |
| Keypad.IsSpaceInvalid | Game/Board.cs:113-116 | a cell is invalid exactly when it is one of the two bottom corners (`*`, `#`); every other cell carries a digit |
| Keypad.IsStartCell | Game/Board.cs:52-53 | a cell may start a number exactly when it is one of the eight cells `2`..`9` listed in `Starts` |
| Keypad.Succ | Game/Board.cs:403-419 | one cursor step stays on the keypad and moves to the next row-major position, except that from the last cell it wraps to (1, 0) |
| Keypad.NextStart | Game/Board.cs:403-421 | repeating the step until the label is allowed to start a number lands on a start cell |
| Keypad.StartsLayout | Game/Board.cs:69 | start cell number i sits at row-major position i + 1 and carries the digit `2` + i |
| Keypad.StartsIndex | Game/Board.cs:80 | a start cell at row-major position p is start cell number p - 1 |
| Keypad.NextStartSteps | Game/Board.cs:403-421 | from start cell i the sweep reaches start cell i + 1, so it visits `2`..`9` in order |
| Keypad.NextStartWraps | Game/Board.cs:415-419 | from key `9` the sweep wraps past the bottom row to key `2` at (1, 0) |
| Keypad.Advance | Game/Board.cs:384-385 | from start cell i the cursor moves to a later start cell, except from the last, key `9`, where it returns to the first |
| Moves.PlayerType.Ordinal | Game/Board.cs:11-19 | the integer of each piece type is one of the six counter indices 0..5 |
| Moves.Ray | Game/Board.cs:174-194 | the cells one `for` loop of the generator visits, in order; `RayExact` says which they are |
| Moves.Candidates | Game/Board.cs:155-365 | the switch on the piece type: the cells tried, in order, by each arm, and none for a type outside the enumeration; `CandidatesInBounds` bounds them |
| Moves.PawnMoves | Game/Board.cs:157-166 | the pawn arm's cell list; `PawnCandidates` states it |
| Moves.RookMoves | Game/Board.cs:167-196 | the rook arm's four rays; `RookShape` states which cells they hold |
| Moves.KnightMoves | Game/Board.cs:198-264 | the knight arm's four guarded blocks; `KnightShape` states which cells they hold |
| Moves.BishopMoves | Game/Board.cs:265-290 | the bishop arm's four rays; `BishopShape` states which cells they hold |
| Moves.QueenMoves | Game/Board.cs:291-336 | the queen arm's axial rays and then its "diagonal" rays; `QueenShape` states which cells they hold, `QueenDiagonalsAreBishop` and `QueenTriesTwice` how the two halves overlap |
| Moves.KingMoves | Game/Board.cs:337-361 | the king arm's four guarded steps; `KingCandidates` states them |
| Moves.Walks | Game/Board.cs:145-153 | the numbers one `PhoneBook` call completes: 1 when the number is complete, otherwise the sum over the enterable candidates; `PhoneBook` adds it to the counter |
| Moves.Settle | Game/Board.cs:126-134 | where one `PhoneBook` call leaves the shared piece object; `PhoneBook` ensures the piece ends there |
| Moves.SettleAlong | Game/Board.cs:174-194 | where trying a candidate list in order leaves the piece: on the last cell entered, or where it stood |
| Moves.Prepend | Game/Board.cs:132 | prefixing a label keeps the number of strings, and each string gains exactly that label in front |
| Moves.Dialled | Game/Board.cs:126-153 | the digit strings still to be dialled: exactly `Walks` of them, each k digits long and made only of digits |
| Moves.DialledFrom | Game/Board.cs:126-134 | over a candidate list: exactly `Total` strings, each one longer than the digits still to go after the move |
| MoveFacts.RayCells | Game/Board.cs:174-194 | every cell of a `for` ray lies between its start and its bound, in the direction it steps |
| MoveFacts.RayExact | Game/Board.cs:174-194 | a `for` ray holds exactly the cells ahead of its start within its bounds on both axes, the same number of steps away on each axis of a diagonal ray |
| MoveFacts.RookShape | Game/Board.cs:167-196 | the rook tries exactly the other keypad cells of its row and its column |
| MoveFacts.BishopShape | Game/Board.cs:265-290 | the bishop tries exactly the keypad cells diagonally away from it, except the bottom-row cells to its left |
| MoveFacts.Axes | Game/Board.cs:174-194 | the rook's four rays stay on the keypad and never contain its own cell |
| MoveFacts.Diagonals | Game/Board.cs:272-288 | the bishop's four rays stay on the keypad and never contain its own cell |
| MoveFacts.QueenDiagonalsAreBishop | Game/Board.cs:318-334 | the queen's "diagonal" rays are exactly the bishop's rays from (x, x): the row plays no part in them |
| MoveFacts.QueenShape | Game/Board.cs:298-334 | the queen tries exactly the other keypad cells of its row and column, and the bishop's cells from (x, x) |
| MoveFacts.QueenTriesTwice | Game/Board.cs:298-334 | from every cell, a cell on both an axial ray and a "diagonal" ray is tried at least twice |
| MoveFacts.QueenDiagonalCells | Game/Board.cs:318-334 | the queen's "diagonal" rays stay on the keypad and never contain a cell of its own column |
| MoveFacts.QueenCells | Game/Board.cs:298-334 | all queen candidates are on the keypad and differ from its cell |
| MoveFacts.KnightCells | Game/Board.cs:206-262 | all knight candidates are on the keypad and differ from its cell |
| MoveFacts.KingCells | Game/Board.cs:344-360 | all king candidates are on the keypad and differ from its cell |
| MoveFacts.CandidatesInBounds | Game/Board.cs:164-360 | for every type, every coordinate handed to ValidateMove is on the keypad and differs from the piece's cell |
| MoveFacts.TotalAppend | Game/Board.cs:174-194 | the count over two candidate lists tried one after the other is the sum of their counts |
| MoveFacts.Total4 | Game/Board.cs:174-194 | the count over four rays tried in turn is the sum of the four counts |
| MoveFacts.SettleAppend | Game/Board.cs:174-194 | trying two lists in turn leaves the piece where the second leaves it, starting from where the first left it |
| MoveFacts.FourSettles | Game/Board.cs:174-194 | four rays tried in turn leave the piece where the concatenated list leaves it |
| MoveFacts.StepFacts | Game/Board.cs:164-165 | a guarded single move counts the target's walks when the guard holds and nothing otherwise, and moves the piece only then |
| MoveFacts.KingSteps | Game/Board.cs:344-360 | the king's count is the sum of its four guarded steps, and its final cell results from trying up, left, down, right in that order |
| MoveFacts.KnightRowSteps | Game/Board.cs:206-217 | one knight block counts its right and left moves only when the row guard holds, trying right first |
| MoveFacts.KnightTotals | Game/Board.cs:206-262 | the knight's count is the sum of its four blocks, with the `> 0` guards as written |
| MoveFacts.KnightSettles | Game/Board.cs:206-262 | the knight's final cell results from its four blocks in source order |
| MoveFacts.RayTotalIsTotal | Game/Board.cs:174-194 | the count a `for` ray accumulates is the count over the ray's cell list |
| MoveFacts.RaySettleIsSettle | Game/Board.cs:174-194 | where a `for` ray leaves the piece is where its cell list leaves it |
| MoveFacts.TotalMono | Game/Board.cs:126-134 | if one type has at most as many walks as another from each candidate, its count over the list is at most the other's |
| MoveFacts.PawnCandidates | Game/Board.cs:164-165 | the pawn's only candidate is the cell above, and only when it is not on the top row |
| MoveFacts.PawnWalks | Game/Board.cs:157-166 | a pawn on row y completes exactly one number of k more digits when k <= y, and none otherwise |
| MoveFacts.KingCandidates | Game/Board.cs:337-361 | the king's candidates are exactly the on-keypad cells one cardinal step away; there are no diagonal steps |
| MoveFacts.KingNoRepeats | Game/Board.cs:344-360 | the king never tries the same cell twice |
| MoveFacts.KnightCandidates | Game/Board.cs:206-262 | every knight candidate is an on-keypad (1, 2) or (2, 1) jump |
| MoveFacts.KnightShape | Game/Board.cs:206-262 | the knight tries exactly the on-keypad L jumps, except up-two-left-one into column 0 and up-one-left-two, which the `> 0` guards drop |
| MoveFacts.KnightSkipsUpTwoLeftOne | Game/Board.cs:206-217 | from every keypad cell, the knight tries the cell two up and one left exactly when that cell is on the keypad and not in column 0: the `> 0` guard drops every jump into column 0 |
| MoveFacts.KnightSkipsKeys | Game/Board.cs:215 | the two instances of that guard: key `8` never reaches key `1`, and key `0` never reaches key `4` |
| MoveFacts.KnightNeverUpOneLeftTwo | Game/Board.cs:245 | the up-1/left-2 jump is never tried, from any cell |
| MoveFacts.BishopSouthWestBound | Game/Board.cs:277 | the bishop reaches the bottom row only to its right, so key `9` never reaches key `0` |
| MoveFacts.BishopBelowKing | Game/Board.cs:265-290 | from key `2` at two digits the bishop completes 2 numbers and the king 3, so bishop counts can be below king counts |
| MoveFacts.QueenRepeats | Game/Board.cs:298-334 | from (1, 0) the queen's candidate list, in order, repeats (0, 0) and (2, 0) |
| MoveFacts.QueenCountsRepeats | Game/Board.cs:318-334 | from key `2` the queen completes 9 two-digit numbers, repeats included |
| MoveFacts.RookWalks | Game/Board.cs:167-196 | a rook's walks are the sum over its right, left, down and up rays |
| MoveFacts.QueenWalks | Game/Board.cs:291-336 | a queen's walks are the sum over its four axial rays and its "diagonal" rays |
| MoveFacts.KingWalks | Game/Board.cs:337-361 | a king's walks are the sum over its four guarded cardinal steps |
| MoveFacts.RookDominatesKing | Game/Board.cs:167-196 | from every cell and for every length, the rook completes at least as many numbers as the king |
| MoveFacts.QueenDominatesKing | Game/Board.cs:291-361 | from every cell and for every length, the queen completes at least as many numbers as the king |
| MoveFacts.KingDominatesPawn | Game/Board.cs:157-166 | from every cell and for every length, the king completes at least as many numbers as the pawn, whose only move is the king's up step |
| MoveFacts.KingStepDominated | Game/Board.cs:344-360 | a king step counts at most the rook ray that begins with the same cell |
| MoveFacts.QueenDominatesRook | Game/Board.cs:291-336 | from every cell and for every length, the queen completes at least as many numbers as the rook |
| MoveFacts.RayDominates | Game/Board.cs:298-314 | over the same ray, the queen counts at least as many numbers as the rook |
| MoveFacts.StartSumCells | Game/Board.cs:373-431 | the sweep from key `2` sums the walks from the eight cells `2`..`9` |
| MoveFacts.LengthOneSweep | Game/Board.cs:149-153 | at length 1 each start cell completes exactly one number, so the sweep counts 8 per piece |
| Game.DueStep | Game/Board.cs:377-382 | running one more player adds its walks to counter u exactly when the player is of type u |
| Game.DueFrom | Game/Board.cs:384-385 | what the sweep owes from start cell i is the walks from cell i plus what the later cells owe |
| Game.Piece.constructor | Game/Piece.cs:9-12 | a new piece has the given type, and (0, 0) as position like the zeroed fields it models |
| Game.Piece.BoardX | Game/Piece.cs:24-27 | the column the piece stands on; `SetPosition` and the constructor fix it |
| Game.Piece.BoardY | Game/Piece.cs:29-32 | the row the piece stands on; `SetPosition` and the constructor fix it |
| Game.Piece.Type | Game/Piece.cs:46-49 | the piece's type, which only the constructor sets |
| Game.Piece.SetPosition | Game/Piece.cs:40-44 | afterwards the getters return the new coordinates; the type is a constant |
| Game.Piece.AddToBoard | Game/Piece.cs:19-22 | the piece is appended to the board's players and placed on the board's current start |
| Game.Board.Default | Game/Board.cs:34-39 | the default board is for seven-digit numbers and starts in the initial state |
| Game.Board.constructor | Game/Board.cs:41-46 | the board keeps the given length and starts in the initial state |
| Game.Board.InitializeBoard | Game/Board.cs:63-104 | no players, all six counters 0, cursor and remembered start on the first start cell in row-major order, (1, 0), and the number "2" |
| Game.Board.AddPiece | Game/Board.cs:57-61 | the players gain exactly this piece at the end, placed on the current start |
| Game.Board.ValidateMove | Game/Board.cs:126-134 | a move onto `*` or `#` changes no counter and leaves the piece where it was; otherwise the piece's own counter gains the walks from the target and no other counter changes |
| Game.Board.PhoneBook | Game/Board.cs:145-366 | a complete number adds exactly 1 to the piece's counter; otherwise the walks of the missing digits, `Walks(type, x, y, L - n)` for a number of n digits, are added; no other counter changes; an unknown type adds nothing |
| Game.Board.TryMove | Game/Board.cs:344-360 | a guarded ValidateMove: it changes counters and position only when the guard holds |
| Game.Board.WalkRay | Game/Board.cs:174-194 | one `for` ray adds the count over its cells to the piece's counter and leaves the piece where the cell list leaves it |
| Game.Board.MovePawn | Game/Board.cs:157-166 | the pawn arm adds the count over the pawn's candidates, from the position read on entry |
| Game.Board.MoveRook | Game/Board.cs:167-196 | the rook arm adds the count over its four rays, from the position read on entry |
| Game.Board.MoveKnight | Game/Board.cs:198-264 | the knight arm adds the count over its eight guarded jumps, from the position read on entry |
| Game.Board.TryKnightRow | Game/Board.cs:206-217 | one knight block adds its right and left jumps only when the row guard holds |
| Game.Board.MoveBishop | Game/Board.cs:265-290 | the bishop arm adds the count over its four rays, from the position read on entry |
| Game.Board.MoveQueen | Game/Board.cs:291-336 | the queen arm adds the count over its axial rays followed by its "diagonal" rays |
| Game.Board.MoveQueenLines | Game/Board.cs:298-314 | the queen's four axial rays, in source order |
| Game.Board.MoveQueenDiagonals | Game/Board.cs:318-334 | the queen's four rays computed from x alone, in source order |
| Game.Board.MoveKing | Game/Board.cs:337-361 | the king arm adds the count over its four guarded steps, from the position read on entry |
| Game.Board.Play | Game/Board.cs:373-390 | each counter gains `Count(players, u)` times the walks from the current start cell and from every later one; the cursor ends on key `2`; every player ends where its walks from key `9` leave it |
| Game.Board.PlayRound | Game/Board.cs:377-382 | one pass over the players adds, for each type, its walks from the current start cell, once per player of that type |
| Game.Board.Reset | Game/Board.cs:397-431 | the cursor moves to the next start cell in row-major order, wrapping to (1, 0); the number restarts with its label; the result is false exactly when the cursor is back on the remembered first start |

## Left out

- Program.cs is not part of this model. It is the console entry point: printing, enum names and waiting for a key are I/O only.
- The `Random` created in `Reset` (Game/Board.cs:399) is never used and has no counterpart.
- The counter array's size comes from reflection over the enum in the source. Here it is the constant `PlayerCount` = 6.
- The LINQ `Concat`/`Contains` tests on the rule arrays become membership in the character sets `Invalid` and `InvalidStart`.
- The keypad `spaces` is assigned once, in `InitializeBoard`, and never changed, so it is the module constant `Spaces`.
- The counters are unbounded integers, and the source's 32-bit `int` wrap-around is not modelled. By `Walks`, one queen's sweep count is 2,085,376,089 at 11 digits and 14,445,727,717 at 12, so a queen's counter wraps from 12 digits on (from 11 with two queens); the other types stay below 2^31 - 1 for longer.
- Game.Board.Play: requires `phoneNumberLength >= 1`. For smaller lengths the completion test `|number| == L` never holds, so with a piece that always has a move (the king) the source recurses until the stack overflows.
- Game.Board.Play: with length 1 it requires every player's type to be in 0..5. The source then indexes `numbers` with the type and throws; for longer numbers an unknown type falls into `default` and is modelled.
- Game.Board.PhoneBook: for the same reason it requires a known type when the number is already complete.
- The switch arms of `PhoneBook` are separate methods (MovePawn … MoveKing). Within them:
  - each `for` loop is a call of `WalkRay`;
  - each guarded single move is `TryMove`;
  - each knight block is `TryKnightRow`;
  - the queen arm is split into its axial and "diagonal" halves.

  The same calls happen in the same order. The `foreach` of `Play` is likewise the method `PlayRound`.
- The constructors give `numbers` a placeholder array before the object exists; `InitializeBoard` then allocates the counters, as in the source.
- `Enterable` restates the "not `*` or `#`" test on coordinates. It agrees with `IsSpaceInvalid` by that function's postcondition.
- The digit strings the methods build are not tied to `Dialled` by a method contract. The methods' contracts state the number of completed strings, and `Dialled` states their lengths and digits.
- Repeated calls of `Play` on one board are covered only by Play's cumulative contract. The source defines nothing beyond that.
