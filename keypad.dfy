/** The fixed 4 x 3 telephone keypad the pieces walk on, the two rule sets
    that restrict it, and the row-major cursor step used to sweep the start
    cells. Coordinates are (x, y): column x in 0..2, row y in 0..3, with the
    origin at the top-left key. */
module Keypad {

  const Width: int := 3
  const Height: int := 4

  datatype Cell = Cell(x: int, y: int)

  /** The keypad, row by row from the top (the board is hard-coded). */
  const Spaces: seq<seq<char>> :=
    [['1', '2', '3'], ['4', '5', '6'], ['7', '8', '9'], ['*', '0', '#']]

  /** Labels that may never be part of a phone number. */
  const Invalid: set<char> := {'*', '#'}

  /** Labels that, together with Invalid, may not start a phone number. */
  const InvalidStart: set<char> := {'0', '1'}

  predicate InBounds(x: int, y: int) {
    0 <= x < Width && 0 <= y < Height
  }

  predicate AllInBounds(cs: seq<Cell>) {
    forall c :: c in cs ==> InBounds(c.x, c.y)
  }

  function Label(x: int, y: int): char
    requires InBounds(x, y)
  {
    Spaces[y][x]
  }

  /** The telephone layout: the top three rows carry '1' to '9' in
      row-major order, the bottom row '*', '0' and '#'. */
  lemma LabelLayout(x: int, y: int)
    requires InBounds(x, y)
    ensures y < Height - 1 ==> Label(x, y) as int == '1' as int + Pos(x, y)
    ensures y == Height - 1 ==> Label(x, y) == "*0#"[x]
  {
    assert Spaces[0] == "123" && Spaces[1] == "456" && Spaces[2] == "789" && Spaces[3] == "*0#";
  }

  predicate IsDigit(ch: char) {
    '0' <= ch <= '9'
  }

  /** The cells a number may not pass through: exactly the two bottom
      corners, and every other cell carries a digit. */
  function IsSpaceInvalid(x: int, y: int): (r: bool)
    requires InBounds(x, y)
    ensures r <==> y == Height - 1 && x != 1
    ensures !r ==> IsDigit(Label(x, y))
  {
    Label(x, y) in Invalid
  }

  /** The eight start cells, keys '2' to '9', in row-major order. */
  const Starts: seq<Cell> :=
    [Cell(1, 0), Cell(2, 0), Cell(0, 1), Cell(1, 1), Cell(2, 1), Cell(0, 2), Cell(1, 2), Cell(2, 2)]

  /** A cell a number may start from: neither in Invalid nor in InvalidStart. */
  function IsStartCell(x: int, y: int): (r: bool)
    requires InBounds(x, y)
    ensures r <==> Cell(x, y) in Starts
  {
    Label(x, y) !in Invalid + InvalidStart
  }

  /** Position of a cell in row-major order. */
  function Pos(x: int, y: int): int {
    y * Width + x
  }

  /** One step of the sweep cursor: the next column, else the first column
      of the next row; past the last row the cursor is reset to column 0 and
      then advanced once more, so it lands on (1, 0) and not on (0, 0). */
  function Succ(x: int, y: int): (c: Cell)
    requires InBounds(x, y)
    ensures InBounds(c.x, c.y)
    ensures if Pos(x, y) < Width * Height - 1 then Pos(c.x, c.y) == Pos(x, y) + 1 else c == Cell(1, 0)
  {
    if x + 1 < Width then Cell(x + 1, y)
    else if y + 1 < Height then Cell(0, y + 1)
    else Cell(1, 0)
  }

  /** The first start cell the cursor reaches after (x, y). */
  function NextStart(x: int, y: int): (c: Cell)
    requires InBounds(x, y)
    ensures InBounds(c.x, c.y) && IsStartCell(c.x, c.y)
    decreases Width * Height - Pos(x, y)
  {
    var n := Succ(x, y);
    if IsStartCell(n.x, n.y) then n else NextStart(n.x, n.y)
  }

  /** Start cell number i sits at row-major position i + 1 and carries the
      digit '2' + i. */
  lemma StartsLayout(i: int)
    requires 0 <= i < |Starts|
    ensures InBounds(Starts[i].x, Starts[i].y)
    ensures Pos(Starts[i].x, Starts[i].y) == i + 1
    ensures Label(Starts[i].x, Starts[i].y) == "23456789"[i]
  {
  }

  /** A start cell at row-major position p is start cell number p - 1. */
  lemma StartsIndex(x: int, y: int)
    requires InBounds(x, y) && IsStartCell(x, y)
    ensures 1 <= Pos(x, y) <= |Starts| && Starts[Pos(x, y) - 1] == Cell(x, y)
  {
  }

  /** The cursor visits the start cells in order, '2' to '9'. */
  lemma NextStartSteps(i: int)
    requires 0 <= i < |Starts| - 1
    ensures NextStart(Starts[i].x, Starts[i].y) == Starts[i + 1]
  {
    if i == 0 {
      assert NextStart(1, 0) == Cell(2, 0);
    } else if i == 1 {
      assert NextStart(2, 0) == Cell(0, 1);
    } else if i == 2 {
      assert NextStart(0, 1) == Cell(1, 1);
    } else if i == 3 {
      assert NextStart(1, 1) == Cell(2, 1);
    } else if i == 4 {
      assert NextStart(2, 1) == Cell(0, 2);
    } else if i == 5 {
      assert NextStart(0, 2) == Cell(1, 2);
    } else {
      assert NextStart(1, 2) == Cell(2, 2);
    }
  }

  /** One step of the cursor between start cells: from start cell number
      i it reaches number i + 1, and from the last, key '9', the first. */
  lemma Advance(x: int, y: int)
    requires InBounds(x, y) && IsStartCell(x, y)
    ensures 1 <= Pos(x, y) <= |Starts| && Starts[Pos(x, y) - 1] == Cell(x, y)
    ensures Pos(x, y) < |Starts| ==>
      NextStart(x, y) == Starts[Pos(x, y)] && Pos(NextStart(x, y).x, NextStart(x, y).y) == Pos(x, y) + 1
    ensures Pos(x, y) == |Starts| ==> Cell(x, y) == Cell(2, 2) && NextStart(x, y) == Starts[0]
  {
    StartsIndex(x, y);
    var i := Pos(x, y) - 1;
    if i < |Starts| - 1 {
      NextStartSteps(i);
      StartsLayout(i + 1);
    } else {
      NextStartWraps();
    }
  }

  /** From the last start cell, '9', the cursor wraps to the first, '2'. */
  lemma NextStartWraps()
    ensures NextStart(2, 2) == Starts[0]
  {
    assert NextStart(2, 3) == Cell(1, 0);
    assert NextStart(1, 3) == Cell(1, 0);
    assert NextStart(0, 3) == Cell(1, 0);
  }
}
