/** The six pieces, the candidate cells each one tries from a position (one
    list per arm of the move generator, in the order the generator tries
    them), and the number of phone numbers a walk from a cell can complete. */
module Moves {
  import opened Keypad

  datatype PlayerType = Pawn | Rook | Knight | Bishop | Queen | King {
    /** The integer a piece stores for its type: one of the counter
        indices 0..5. */
    function Ordinal(): (r: int)
      ensures IsPlayerType(r)
    {
      match this
      case Pawn => 0
      case Rook => 1
      case Knight => 2
      case Bishop => 3
      case Queen => 4
      case King => 5
    }
  }

  /** Number of piece types, and so of counters. */
  const PlayerCount: int := 6

  predicate IsPlayerType(t: int) {
    0 <= t < PlayerCount
  }

  /** Loop condition of one coordinate of a ray: a decreasing coordinate
      stops below 0, an increasing one at `end`, a fixed one never. */
  predicate Within(v: int, d: int, end: int) {
    (d < 0 ==> v >= 0) && (d > 0 ==> v < end)
  }

  /** The cells a `for` loop over (i, j) stepping by (di, dj) visits while
      both coordinates are Within their bound. */
  function Ray(i: int, j: int, di: int, dj: int, iEnd: int, jEnd: int): (r: seq<Cell>)
    requires -1 <= di <= 1 && -1 <= dj <= 1 && (di != 0 || dj != 0)
    decreases if di < 0 then i + 1 else if di > 0 then iEnd - i else if dj < 0 then j + 1 else jEnd - j
  {
    if Within(i, di, iEnd) && Within(j, dj, jEnd) then
      [Cell(i, j)] + Ray(i + di, j + dj, di, dj, iEnd, jEnd)
    else
      []
  }

  /** Pawn: one step up. */
  function PawnMoves(x: int, y: int): (r: seq<Cell>)
  {
    if y - 1 >= 0 then [Cell(x, y - 1)] else []
  }

  /** Rook: right, left, down, then up, every distance. */
  function RookMoves(x: int, y: int): (r: seq<Cell>)
  {
    Ray(x + 1, y, 1, 0, Width, Height) + Ray(x - 1, y, -1, 0, Width, Height)
    + Ray(x, y + 1, 0, 1, Width, Height) + Ray(x, y - 1, 0, -1, Width, Height)
  }

  /** A single guarded move: the cell c when the guard holds, else none. */
  function Step(guard: bool, c: Cell): (r: seq<Cell>)
  {
    if guard then [c] else []
  }

  /** Knight: up 2, down 2, up 1, down 1, each then right and left. The
      up-2/left-1 and up-1/left-2 guards compare with `> 0`, not `>= 0`. */
  function KnightMoves(x: int, y: int): (r: seq<Cell>)
  {
    KnightRow(y - 2 >= 0, x + 1 < Width, Cell(x + 1, y - 2), x - 1 > 0, Cell(x - 1, y - 2))
    + KnightRow(y + 2 < Height, x + 1 < Width, Cell(x + 1, y + 2), x - 1 >= 0, Cell(x - 1, y + 2))
    + KnightRow(y - 1 >= 0, x + 2 < Width, Cell(x + 2, y - 1), x - 2 > 0, Cell(x - 2, y - 1))
    + KnightRow(y + 1 < Height, x + 2 < Width, Cell(x + 2, y + 1), x - 2 >= 0, Cell(x - 2, y + 1))
  }

  /** One block of the knight's moves: when the target row is on the
      keypad, the right move and then the left move, each under its guard. */
  function KnightRow(rowOk: bool, rightOk: bool, right: Cell, leftOk: bool, left: Cell): (r: seq<Cell>)
  {
    if rowOk then Step(rightOk, right) + Step(leftOk, left) else []
  }

  /** Bishop: north-west, south-west, north-east, south-east. The
      south-west ray bounds its row by the width, not the height. */
  function BishopMoves(x: int, y: int): (r: seq<Cell>)
  {
    Ray(x - 1, y - 1, -1, -1, Width, Height) + Ray(x - 1, y + 1, -1, 1, Width, Width)
    + Ray(x + 1, y - 1, 1, -1, Width, Height) + Ray(x + 1, y + 1, 1, 1, Width, Height)
  }

  /** Queen: up, down, right, left, then four "diagonal" rays whose row and
      column both start from the column x; the row y plays no part in them. */
  function QueenMoves(x: int, y: int): (r: seq<Cell>)
  {
    QueenLines(x, y) + QueenDiagonals(x)
  }

  function QueenLines(x: int, y: int): (r: seq<Cell>)
  {
    Ray(x, y - 1, 0, -1, Width, Height) + Ray(x, y + 1, 0, 1, Width, Height)
    + Ray(x + 1, y, 1, 0, Width, Height) + Ray(x - 1, y, -1, 0, Width, Height)
  }

  function QueenDiagonals(x: int): (r: seq<Cell>)
  {
    Ray(x - 1, x - 1, -1, -1, Width, Height) + Ray(x - 1, x + 1, -1, 1, Width, Width)
    + Ray(x + 1, x - 1, 1, -1, Width, Height) + Ray(x + 1, x + 1, 1, 1, Width, Height)
  }

  /** King: up, left, down, right. */
  function KingMoves(x: int, y: int): (r: seq<Cell>)
  {
    Step(y - 1 >= 0, Cell(x, y - 1)) + Step(x - 1 >= 0, Cell(x - 1, y))
    + Step(y + 1 < Height, Cell(x, y + 1)) + Step(x + 1 < Width, Cell(x + 1, y))
  }

  /** The cells the move generator tries, in order, for a piece of type t
      at (x, y); a type outside the enumeration tries none. Every candidate
      is on the keypad and differs from (x, y). */
  function Candidates(t: int, x: int, y: int): (r: seq<Cell>)
  {
    if t == Pawn.Ordinal() then PawnMoves(x, y)
    else if t == Rook.Ordinal() then RookMoves(x, y)
    else if t == Knight.Ordinal() then KnightMoves(x, y)
    else if t == Bishop.Ordinal() then BishopMoves(x, y)
    else if t == Queen.Ordinal() then QueenMoves(x, y)
    else if t == King.Ordinal() then KingMoves(x, y)
    else []
  }

  /** Number of completed phone numbers a piece of type t counts when it
      stands on (x, y) and k more digits are needed: one if none are,
      otherwise the sum over its candidates. */
  ghost function Walks(t: int, x: int, y: int, k: nat): nat
    decreases k, 2
  {
    if k == 0 then 1 else Onward(t, x, y, k - 1)
  }

  /** The walks that go on from (x, y) with m more digits to go after the
      next one: the sum over the candidates. */
  ghost function Onward(t: int, x: int, y: int, m: nat): nat
    decreases m + 1, 1
  {
    Total(t, Candidates(t, x, y), m)
  }

  /** A cell a walk may step on: on the keypad and not one of the invalid
      labels. Candidates are always on the keypad (see
      MoveFacts.CandidatesInBounds), so the first conjunct only makes the
      counts below total functions. */
  predicate Enterable(c: Cell) {
    InBounds(c.x, c.y) && !(c.y == Height - 1 && c.x != 1)
  }

  /** A candidate contributes nothing when it is an invalid cell, otherwise
      the walks from it with m more digits to go. */
  ghost function Reach(t: int, c: Cell, m: nat): nat
    decreases m, 3
  {
    if !Enterable(c) then 0 else Walks(t, c.x, c.y, m)
  }

  /** Sum of Reach over a candidate list, repeats included. */
  ghost function Total(t: int, cs: seq<Cell>, m: nat): nat
    decreases m + 1, 0, |cs|
  {
    if cs == [] then 0 else Reach(t, cs[0], m) + Total(t, cs[1..], m)
  }

  /** Where a piece of type t that starts on (x, y) with k more digits to
      go is left standing: the move generator leaves the piece on the last
      cell it moved to, so this is where the walk from the last enterable
      candidate is left, or (x, y) itself when nothing is entered. */
  ghost function Settle(t: int, x: int, y: int, k: nat): Cell
    decreases k, 2
  {
    if k == 0 then Cell(x, y) else SettleOnward(t, x, y, k - 1)
  }

  /** Where the walks that go on from (x, y) leave the piece. */
  ghost function SettleOnward(t: int, x: int, y: int, m: nat): Cell
    decreases m + 1, 1
  {
    SettleAlong(t, Candidates(t, x, y), m, Cell(x, y))
  }

  /** Where the piece stands after trying candidate c from position p: an
      invalid cell leaves it at p, otherwise the walk from c leaves it. */
  ghost function Land(t: int, c: Cell, m: nat, p: Cell): Cell
    decreases m, 3
  {
    if !Enterable(c) then p else Settle(t, c.x, c.y, m)
  }

  /** Where the piece stands after trying the candidates cs in order from
      position p, with m more digits to go after each. */
  ghost function SettleAlong(t: int, cs: seq<Cell>, m: nat, p: Cell): Cell
    decreases m + 1, 0, |cs|
  {
    if cs == [] then p else SettleAlong(t, cs[1..], m, Land(t, cs[0], m, p))
  }

  /** What a guarded move adds to the count: Reach when the guard holds. */
  ghost function Gain(t: int, guard: bool, c: Cell, m: nat): nat {
    if guard then Reach(t, c, m) else 0
  }

  /** Where a guarded move leaves a piece that stood on p. */
  ghost function After(t: int, guard: bool, c: Cell, m: nat, p: Cell): Cell {
    if guard then Land(t, c, m, p) else p
  }

  /** What one block of the knight's moves adds to the count. */
  ghost function RowGain(t: int, rowOk: bool, rightOk: bool, right: Cell, leftOk: bool, left: Cell, m: nat): nat {
    if rowOk then Gain(t, rightOk, right, m) + Gain(t, leftOk, left, m) else 0
  }

  /** Where one block of the knight's moves leaves a piece that stood on p. */
  ghost function RowAfter(t: int, rowOk: bool, rightOk: bool, right: Cell, leftOk: bool, left: Cell, m: nat, p: Cell): Cell {
    if rowOk then After(t, leftOk, left, m, After(t, rightOk, right, m, p)) else p
  }

  /** Total over a ray, computed cell by cell as its loop visits them. */
  ghost function RayTotal(t: int, i: int, j: int, di: int, dj: int, iEnd: int, jEnd: int, m: nat): nat
    requires -1 <= di <= 1 && -1 <= dj <= 1 && (di != 0 || dj != 0)
    decreases if di < 0 then i + 1 else if di > 0 then iEnd - i else if dj < 0 then j + 1 else jEnd - j
  {
    if Within(i, di, iEnd) && Within(j, dj, jEnd) then
      Reach(t, Cell(i, j), m) + RayTotal(t, i + di, j + dj, di, dj, iEnd, jEnd, m)
    else
      0
  }

  /** SettleAlong over a ray, computed cell by cell as its loop visits them. */
  ghost function RaySettle(t: int, i: int, j: int, di: int, dj: int, iEnd: int, jEnd: int, m: nat, p: Cell): Cell
    requires -1 <= di <= 1 && -1 <= dj <= 1 && (di != 0 || dj != 0)
    decreases if di < 0 then i + 1 else if di > 0 then iEnd - i else if dj < 0 then j + 1 else jEnd - j
  {
    if Within(i, di, iEnd) && Within(j, dj, jEnd) then
      RaySettle(t, i + di, j + dj, di, dj, iEnd, jEnd, m, Land(t, Cell(i, j), m, p))
    else
      p
  }

  /** Sum of the walks of length k from start cell number i and from every
      later start cell. */
  ghost function StartSum(t: int, i: int, k: nat): nat
    decreases |Starts| - i
  {
    if 0 <= i < |Starts| then Walks(t, Starts[i].x, Starts[i].y, k) + StartSum(t, i + 1, k) else 0
  }

  // ---------------------------------------------------------------------
  // The phone numbers themselves.

  predicate IsDigits(s: string) {
    forall i :: 0 <= i < |s| ==> IsDigit(s[i])
  }

  function Prepend(ch: char, ss: seq<string>): (r: seq<string>)
    ensures |r| == |ss|
    ensures forall i :: 0 <= i < |r| ==> r[i] == [ch] + ss[i]
  {
    if ss == [] then [] else [[ch] + ss[0]] + Prepend(ch, ss[1..])
  }

  /** The digit strings a piece of type t on (x, y) appends to the number
      it has collected before it is complete, one entry per counted walk:
      there are exactly Walks of them, each k digits long. */
  ghost function Dialled(t: int, x: int, y: int, k: nat): (r: seq<string>)
    ensures |r| == Walks(t, x, y, k)
    ensures forall i :: 0 <= i < |r| ==> |r[i]| == k && IsDigits(r[i])
    decreases k, 1
  {
    if k == 0 then [""] else DialledFrom(t, Candidates(t, x, y), k - 1)
  }

  ghost function DialledFrom(t: int, cs: seq<Cell>, m: nat): (r: seq<string>)
    ensures |r| == Total(t, cs, m)
    ensures forall i :: 0 <= i < |r| ==> |r[i]| == m + 1 && IsDigits(r[i])
    decreases m + 1, 0, |cs|
  {
    if cs == [] then []
    else
      var c := cs[0];
      (if !Enterable(c) then [] else Prepend(Label(c.x, c.y), Dialled(t, c.x, c.y, m)))
      + DialledFrom(t, cs[1..], m)
  }
}
