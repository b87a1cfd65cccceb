/** What the candidate lists and the walk counts of module Moves satisfy:
    the shape of each piece's moves (and the places where the generator
    departs from the chess rule), and relations between the counts. */
module MoveFacts {
  import opened Keypad
  import opened Moves

  function Abs(n: int): nat {
    if n < 0 then -n else n
  }

  // ---------------------------------------------------------------------
  // Rays and candidate lists stay on the keypad.

  /** The cells of a ray lie between its start and its bounds, in the
      direction it steps. */
  lemma {:induction false} RayCells(i: int, j: int, di: int, dj: int, iEnd: int, jEnd: int)
    requires -1 <= di <= 1 && -1 <= dj <= 1 && (di != 0 || dj != 0)
    ensures forall c :: c in Ray(i, j, di, dj, iEnd, jEnd) ==>
      (if di < 0 then 0 <= c.x <= i else if di > 0 then i <= c.x < iEnd else c.x == i)
      && (if dj < 0 then 0 <= c.y <= j else if dj > 0 then j <= c.y < jEnd else c.y == j)
    decreases if di < 0 then i + 1 else if di > 0 then iEnd - i else if dj < 0 then j + 1 else jEnd - j
  {
    if Within(i, di, iEnd) && Within(j, dj, jEnd) {
      RayCells(i + di, j + dj, di, dj, iEnd, jEnd);
    }
  }

  /** The rook's four rays from a keypad cell stay on the keypad and
      leave the cell itself out. */
  lemma Axes(x: int, y: int)
    requires InBounds(x, y)
    ensures var r := RookMoves(x, y); AllInBounds(r) && Cell(x, y) !in r
  {
    RayCells(x + 1, y, 1, 0, Width, Height);
    RayCells(x - 1, y, -1, 0, Width, Height);
    RayCells(x, y + 1, 0, 1, Width, Height);
    RayCells(x, y - 1, 0, -1, Width, Height);
  }

  lemma Diagonals(x: int, y: int)
    requires InBounds(x, y)
    ensures var r := BishopMoves(x, y); AllInBounds(r) && Cell(x, y) !in r
  {
    RayCells(x - 1, y - 1, -1, -1, Width, Height);
    RayCells(x - 1, y + 1, -1, 1, Width, Width);
    RayCells(x + 1, y - 1, 1, -1, Width, Height);
    RayCells(x + 1, y + 1, 1, 1, Width, Height);
  }

  /** Coordinate v lies on a ray's axis that starts at s and steps by d
      towards end (or below 0 when d is negative). */
  predicate Ahead(v: int, s: int, d: int, end: int) {
    if d < 0 then 0 <= v <= s else if d > 0 then s <= v < end else v == s
  }

  /** How many steps of d lead from s to v. */
  function Steps(v: int, s: int, d: int): int {
    if d < 0 then s - v else v - s
  }

  /** Exactly the cells ahead of the start on both axes, and on a diagonal
      ray the same number of steps away on each. */
  lemma {:induction false} RayExact(i: int, j: int, di: int, dj: int, iEnd: int, jEnd: int, c: Cell)
    requires -1 <= di <= 1 && -1 <= dj <= 1 && (di != 0 || dj != 0)
    ensures c in Ray(i, j, di, dj, iEnd, jEnd)
      <==> Ahead(c.x, i, di, iEnd) && Ahead(c.y, j, dj, jEnd) && (di != 0 && dj != 0 ==> Steps(c.x, i, di) == Steps(c.y, j, dj))
    decreases if di < 0 then i + 1 else if di > 0 then iEnd - i else if dj < 0 then j + 1 else jEnd - j
  {
    if Within(i, di, iEnd) && Within(j, dj, jEnd) {
      var rest := Ray(i + di, j + dj, di, dj, iEnd, jEnd);
      assert c in Ray(i, j, di, dj, iEnd, jEnd) <==> c == Cell(i, j) || c in rest;
      RayExact(i + di, j + dj, di, dj, iEnd, jEnd, c);
    }
  }

  /** The rook tries exactly the other keypad cells of its row and its
      column. */
  lemma RookShape(x: int, y: int, c: Cell)
    requires InBounds(x, y)
    ensures c in RookMoves(x, y) <==> InBounds(c.x, c.y) && c != Cell(x, y) && (c.x == x || c.y == y)
  {
    RayExact(x + 1, y, 1, 0, Width, Height, c);
    RayExact(x - 1, y, -1, 0, Width, Height, c);
    RayExact(x, y + 1, 0, 1, Width, Height, c);
    RayExact(x, y - 1, 0, -1, Width, Height, c);
  }

  /** The bishop tries exactly the keypad cells diagonally away from it,
      except those on the bottom row to its left: the south-west ray is
      bounded by the width. */
  lemma BishopShape(x: int, y: int, c: Cell)
    requires InBounds(x, y)
    ensures c in BishopMoves(x, y)
      <==> InBounds(c.x, c.y) && Abs(c.x - x) == Abs(c.y - y) >= 1 && !(c.x < x && c.y == Height - 1)
  {
    RayExact(x - 1, y - 1, -1, -1, Width, Height, c);
    RayExact(x - 1, y + 1, -1, 1, Width, Width, c);
    RayExact(x + 1, y - 1, 1, -1, Width, Height, c);
    RayExact(x + 1, y + 1, 1, 1, Width, Height, c);
  }

  /** The queen's "diagonal" rays are the bishop's rays from (x, x): the
      row y plays no part in them. */
  lemma QueenDiagonalsAreBishop(x: int)
    ensures QueenDiagonals(x) == BishopMoves(x, x)
  {
  }

  /** The queen tries exactly the rook's cells from (x, y) and the bishop's
      cells from (x, x). */
  lemma QueenShape(x: int, y: int, c: Cell)
    requires InBounds(x, y)
    ensures c in QueenMoves(x, y)
      <==> ((InBounds(c.x, c.y) && c != Cell(x, y) && (c.x == x || c.y == y))
            || (InBounds(c.x, c.y) && Abs(c.x - x) == Abs(c.y - x) >= 1 && !(c.x < x && c.y == Height - 1)))
  {
    assert c in QueenLines(x, y) <==> c in RookMoves(x, y);
    RookShape(x, y, c);
    QueenDiagonalsAreBishop(x);
    BishopShape(x, x, c);
  }

  /** A cell on both an axial ray and a "diagonal" ray is tried twice, and
      so counted twice. */
  lemma QueenTriesTwice(x: int, y: int, c: Cell)
    ensures c in QueenLines(x, y) && c in QueenDiagonals(x) ==> multiset(QueenMoves(x, y))[c] >= 2
  {
    assert multiset(QueenMoves(x, y)) == multiset(QueenLines(x, y)) + multiset(QueenDiagonals(x));
  }

  lemma QueenDiagonalCells(x: int)
    requires 0 <= x < Width
    ensures var r := QueenDiagonals(x); AllInBounds(r) && forall c :: c in r ==> c.x != x
  {
    RayCells(x - 1, x - 1, -1, -1, Width, Height);
    RayCells(x - 1, x + 1, -1, 1, Width, Width);
    RayCells(x + 1, x - 1, 1, -1, Width, Height);
    RayCells(x + 1, x + 1, 1, 1, Width, Height);
  }

  lemma QueenCells(x: int, y: int)
    requires InBounds(x, y)
    ensures var r := QueenMoves(x, y); AllInBounds(r) && Cell(x, y) !in r
  {
    var axes := Ray(x, y - 1, 0, -1, Width, Height) + Ray(x, y + 1, 0, 1, Width, Height)
      + Ray(x + 1, y, 1, 0, Width, Height) + Ray(x - 1, y, -1, 0, Width, Height);
    Axes(x, y);
    assert forall c :: c in axes ==> c in RookMoves(x, y);
    QueenDiagonalCells(x);
  }

  lemma KnightCells(x: int, y: int)
    requires InBounds(x, y)
    ensures var r := KnightMoves(x, y); AllInBounds(r) && Cell(x, y) !in r
  {
    forall c | c in KnightMoves(x, y)
      ensures InBounds(c.x, c.y) && c != Cell(x, y)
    {
      KnightCandidates(x, y, c);
    }
  }

  lemma KingCells(x: int, y: int)
    requires InBounds(x, y)
    ensures var r := KingMoves(x, y); AllInBounds(r) && Cell(x, y) !in r
  {
    forall c | c in KingMoves(x, y)
      ensures InBounds(c.x, c.y) && c != Cell(x, y)
    {
      KingCandidates(x, y, c);
    }
  }

  /** Every cell the generator tries from a keypad cell is on the keypad
      and is not the cell the piece stands on. */
  lemma CandidatesInBounds(t: int, x: int, y: int)
    requires InBounds(x, y)
    ensures AllInBounds(Candidates(t, x, y))
    ensures Cell(x, y) !in Candidates(t, x, y)
  {
    if t == Rook.Ordinal() {
      Axes(x, y);
    } else if t == Knight.Ordinal() {
      KnightCells(x, y);
    } else if t == Bishop.Ordinal() {
      Diagonals(x, y);
    } else if t == Queen.Ordinal() {
      QueenCells(x, y);
    } else if t == King.Ordinal() {
      KingCells(x, y);
    }
  }

  // ---------------------------------------------------------------------
  // Sums over candidate lists.

  lemma {:induction false} TotalAppend(t: int, a: seq<Cell>, b: seq<Cell>, m: nat)
    ensures Total(t, a + b, m) == Total(t, a, m) + Total(t, b, m)
  {
    if a == [] {
      assert a + b == b;
    } else {
      assert (a + b)[0] == a[0];
      assert (a + b)[1..] == a[1..] + b;
      TotalAppend(t, a[1..], b, m);
    }
  }

  lemma Total4(t: int, a: seq<Cell>, b: seq<Cell>, c: seq<Cell>, d: seq<Cell>, m: nat)
    ensures Total(t, a + b + c + d, m) == Total(t, a, m) + Total(t, b, m) + Total(t, c, m) + Total(t, d, m)
  {
    TotalAppend(t, a, b, m);
    TotalAppend(t, a + b, c, m);
    TotalAppend(t, a + b + c, d, m);
  }

  /** Trying a + b from p ends where trying b ends from where a ends. */
  lemma {:induction false} SettleAppend(t: int, a: seq<Cell>, b: seq<Cell>, m: nat, p: Cell)
    ensures SettleAlong(t, a + b, m, p) == SettleAlong(t, b, m, SettleAlong(t, a, m, p))
  {
    if a == [] {
      assert a + b == b;
    } else {
      assert (a + b)[0] == a[0];
      assert (a + b)[1..] == a[1..] + b;
      SettleAppend(t, a[1..], b, m, Land(t, a[0], m, p));
    }
  }

  /** A guarded move counts and settles like one candidate when its guard
      holds and like none otherwise. */
  lemma StepFacts(t: int, guard: bool, c: Cell, m: nat, p: Cell)
    ensures Total(t, Step(guard, c), m) == if guard then Reach(t, c, m) else 0
    ensures SettleAlong(t, Step(guard, c), m, p) == if guard then Land(t, c, m, p) else p
  {
    if guard {
      assert Step(guard, c)[1..] == [];
    }
  }

  /** The king's four guarded moves, one after the other. */
  lemma KingSteps(t: int, x: int, y: int, m: nat, p: Cell)
    ensures Total(t, KingMoves(x, y), m)
         == Gain(t, y - 1 >= 0, Cell(x, y - 1), m) + Gain(t, x - 1 >= 0, Cell(x - 1, y), m)
          + Gain(t, y + 1 < Height, Cell(x, y + 1), m) + Gain(t, x + 1 < Width, Cell(x + 1, y), m)
    ensures SettleAlong(t, KingMoves(x, y), m, p)
         == After(t, x + 1 < Width, Cell(x + 1, y), m,
              After(t, y + 1 < Height, Cell(x, y + 1), m,
                After(t, x - 1 >= 0, Cell(x - 1, y), m,
                  After(t, y - 1 >= 0, Cell(x, y - 1), m, p))))
  {
    var up := Step(y - 1 >= 0, Cell(x, y - 1));
    var left := Step(x - 1 >= 0, Cell(x - 1, y));
    var down := Step(y + 1 < Height, Cell(x, y + 1));
    var right := Step(x + 1 < Width, Cell(x + 1, y));
    Total4(t, up, left, down, right, m);
    SettleAppend(t, up, left, m, p);
    SettleAppend(t, up + left, down, m, p);
    SettleAppend(t, up + left + down, right, m, p);
    StepFacts(t, y - 1 >= 0, Cell(x, y - 1), m, p);
  }

  /** One block of the knight's moves counts and settles as its two
      guarded moves do. */
  lemma KnightRowSteps(t: int, rowOk: bool, rightOk: bool, right: Cell, leftOk: bool, left: Cell, m: nat, p: Cell)
    ensures Total(t, KnightRow(rowOk, rightOk, right, leftOk, left), m) == RowGain(t, rowOk, rightOk, right, leftOk, left, m)
    ensures SettleAlong(t, KnightRow(rowOk, rightOk, right, leftOk, left), m, p)
         == RowAfter(t, rowOk, rightOk, right, leftOk, left, m, p)
  {
    if rowOk {
      TotalAppend(t, Step(rightOk, right), Step(leftOk, left), m);
      SettleAppend(t, Step(rightOk, right), Step(leftOk, left), m, p);
      StepFacts(t, rightOk, right, m, p);
      StepFacts(t, leftOk, left, m, SettleAlong(t, Step(rightOk, right), m, p));
    }
  }

  /** The knight's four blocks, one after the other, count as their
      guarded moves do ... */
  lemma KnightTotals(t: int, x: int, y: int, m: nat)
    ensures Total(t, KnightMoves(x, y), m)
         == RowGain(t, y - 2 >= 0, x + 1 < Width, Cell(x + 1, y - 2), x - 1 > 0, Cell(x - 1, y - 2), m)
          + RowGain(t, y + 2 < Height, x + 1 < Width, Cell(x + 1, y + 2), x - 1 >= 0, Cell(x - 1, y + 2), m)
          + RowGain(t, y - 1 >= 0, x + 2 < Width, Cell(x + 2, y - 1), x - 2 > 0, Cell(x - 2, y - 1), m)
          + RowGain(t, y + 1 < Height, x + 2 < Width, Cell(x + 2, y + 1), x - 2 >= 0, Cell(x - 2, y + 1), m)
  {
    var g1 := KnightRow(y - 2 >= 0, x + 1 < Width, Cell(x + 1, y - 2), x - 1 > 0, Cell(x - 1, y - 2));
    var g2 := KnightRow(y + 2 < Height, x + 1 < Width, Cell(x + 1, y + 2), x - 1 >= 0, Cell(x - 1, y + 2));
    var g3 := KnightRow(y - 1 >= 0, x + 2 < Width, Cell(x + 2, y - 1), x - 2 > 0, Cell(x - 2, y - 1));
    var g4 := KnightRow(y + 1 < Height, x + 2 < Width, Cell(x + 2, y + 1), x - 2 >= 0, Cell(x - 2, y + 1));
    Total4(t, g1, g2, g3, g4, m);
    KnightRowSteps(t, y - 2 >= 0, x + 1 < Width, Cell(x + 1, y - 2), x - 1 > 0, Cell(x - 1, y - 2), m, Cell(x, y));
    KnightRowSteps(t, y + 2 < Height, x + 1 < Width, Cell(x + 1, y + 2), x - 1 >= 0, Cell(x - 1, y + 2), m, Cell(x, y));
    KnightRowSteps(t, y - 1 >= 0, x + 2 < Width, Cell(x + 2, y - 1), x - 2 > 0, Cell(x - 2, y - 1), m, Cell(x, y));
    KnightRowSteps(t, y + 1 < Height, x + 2 < Width, Cell(x + 2, y + 1), x - 2 >= 0, Cell(x - 2, y + 1), m, Cell(x, y));
  }

  /** ... and settle as they do. */
  lemma KnightSettles(t: int, x: int, y: int, m: nat, p: Cell)
    ensures SettleAlong(t, KnightMoves(x, y), m, p)
         == RowAfter(t, y + 1 < Height, x + 2 < Width, Cell(x + 2, y + 1), x - 2 >= 0, Cell(x - 2, y + 1), m,
              RowAfter(t, y - 1 >= 0, x + 2 < Width, Cell(x + 2, y - 1), x - 2 > 0, Cell(x - 2, y - 1), m,
                RowAfter(t, y + 2 < Height, x + 1 < Width, Cell(x + 1, y + 2), x - 1 >= 0, Cell(x - 1, y + 2), m,
                  RowAfter(t, y - 2 >= 0, x + 1 < Width, Cell(x + 1, y - 2), x - 1 > 0, Cell(x - 1, y - 2), m, p))))
  {
    var g1 := KnightRow(y - 2 >= 0, x + 1 < Width, Cell(x + 1, y - 2), x - 1 > 0, Cell(x - 1, y - 2));
    var g2 := KnightRow(y + 2 < Height, x + 1 < Width, Cell(x + 1, y + 2), x - 1 >= 0, Cell(x - 1, y + 2));
    var g3 := KnightRow(y - 1 >= 0, x + 2 < Width, Cell(x + 2, y - 1), x - 2 > 0, Cell(x - 2, y - 1));
    var g4 := KnightRow(y + 1 < Height, x + 2 < Width, Cell(x + 2, y + 1), x - 2 >= 0, Cell(x - 2, y + 1));
    FourSettles(t, g1, g2, g3, g4, m, p);
    var p1 := SettleAlong(t, g1, m, p);
    var p2 := SettleAlong(t, g2, m, p1);
    var p3 := SettleAlong(t, g3, m, p2);
    KnightRowSteps(t, y - 2 >= 0, x + 1 < Width, Cell(x + 1, y - 2), x - 1 > 0, Cell(x - 1, y - 2), m, p);
    KnightRowSteps(t, y + 2 < Height, x + 1 < Width, Cell(x + 1, y + 2), x - 1 >= 0, Cell(x - 1, y + 2), m, p1);
    KnightRowSteps(t, y - 1 >= 0, x + 2 < Width, Cell(x + 2, y - 1), x - 2 > 0, Cell(x - 2, y - 1), m, p2);
    KnightRowSteps(t, y + 1 < Height, x + 2 < Width, Cell(x + 2, y + 1), x - 2 >= 0, Cell(x - 2, y + 1), m, p3);
  }

  /** Four lists tried one after the other leave the piece where the four
      joined would. */
  lemma FourSettles(t: int, a: seq<Cell>, b: seq<Cell>, c: seq<Cell>, d: seq<Cell>, m: nat, p: Cell)
    ensures SettleAlong(t, d, m, SettleAlong(t, c, m, SettleAlong(t, b, m, SettleAlong(t, a, m, p))))
         == SettleAlong(t, a + b + c + d, m, p)
  {
    SettleAppend(t, a, b, m, p);
    SettleAppend(t, a + b, c, m, p);
    SettleAppend(t, a + b + c, d, m, p);
  }

  /** A ray's loop counts what Total counts over the ray ... */
  lemma {:induction false} RayTotalIsTotal(t: int, i: int, j: int, di: int, dj: int, iEnd: int, jEnd: int, m: nat)
    requires -1 <= di <= 1 && -1 <= dj <= 1 && (di != 0 || dj != 0)
    ensures RayTotal(t, i, j, di, dj, iEnd, jEnd, m) == Total(t, Ray(i, j, di, dj, iEnd, jEnd), m)
    decreases if di < 0 then i + 1 else if di > 0 then iEnd - i else if dj < 0 then j + 1 else jEnd - j
  {
    if Within(i, di, iEnd) && Within(j, dj, jEnd) {
      var r := Ray(i + di, j + dj, di, dj, iEnd, jEnd);
      assert ([Cell(i, j)] + r)[1..] == r;
      RayTotalIsTotal(t, i + di, j + dj, di, dj, iEnd, jEnd, m);
    }
  }

  /** ... and leaves the piece where SettleAlong over the ray does. */
  lemma {:induction false} RaySettleIsSettle(t: int, i: int, j: int, di: int, dj: int, iEnd: int, jEnd: int, m: nat, p: Cell)
    requires -1 <= di <= 1 && -1 <= dj <= 1 && (di != 0 || dj != 0)
    ensures RaySettle(t, i, j, di, dj, iEnd, jEnd, m, p) == SettleAlong(t, Ray(i, j, di, dj, iEnd, jEnd), m, p)
    decreases if di < 0 then i + 1 else if di > 0 then iEnd - i else if dj < 0 then j + 1 else jEnd - j
  {
    if Within(i, di, iEnd) && Within(j, dj, jEnd) {
      var r := Ray(i + di, j + dj, di, dj, iEnd, jEnd);
      assert ([Cell(i, j)] + r)[1..] == r;
      RaySettleIsSettle(t, i + di, j + dj, di, dj, iEnd, jEnd, m, Land(t, Cell(i, j), m, p));
    }
  }

  /** A list whose every cell has at most as many walks for t1 as for t2
      sums to at most as much for t1 as for t2. */
  lemma {:induction false} TotalMono(t1: int, t2: int, cs: seq<Cell>, m: nat)
    requires forall i :: 0 <= i < |cs| ==> Walks(t1, cs[i].x, cs[i].y, m) <= Walks(t2, cs[i].x, cs[i].y, m)
    ensures Total(t1, cs, m) <= Total(t2, cs, m)
  {
    if cs != [] {
      assert Walks(t1, cs[0].x, cs[0].y, m) <= Walks(t2, cs[0].x, cs[0].y, m);
      assert forall i :: 0 <= i < |cs[1..]| ==> cs[1..][i] == cs[i + 1];
      TotalMono(t1, t2, cs[1..], m);
    }
  }

  // ---------------------------------------------------------------------
  // The shape of each piece's moves.

  /** The pawn's only candidate is the cell above it. */
  lemma PawnCandidates(x: int, y: int)
    requires InBounds(x, y)
    ensures forall c :: c in Candidates(Pawn.Ordinal(), x, y) <==> y >= 1 && c == Cell(x, y - 1)
  {
  }

  /** A pawn on row y completes exactly one number needing k more digits
      when it has k rows above it, and none otherwise. */
  lemma {:induction false} PawnWalks(x: int, y: int, k: nat)
    requires InBounds(x, y)
    ensures Walks(Pawn.Ordinal(), x, y, k) == if k <= y then 1 else 0
  {
    if k > 0 && y >= 1 {
      var cs := Candidates(Pawn.Ordinal(), x, y);
      assert cs == [Cell(x, y - 1)];
      PawnWalks(x, y - 1, k - 1);
      assert Total(Pawn.Ordinal(), cs, k - 1) == Reach(Pawn.Ordinal(), Cell(x, y - 1), k - 1);
    }
  }

  /** The king's candidates are exactly its on-keypad neighbours one step
      up, left, down or right: the code has no diagonal king steps. */
  lemma KingCandidates(x: int, y: int, c: Cell)
    requires InBounds(x, y)
    ensures c in Candidates(King.Ordinal(), x, y) <==> InBounds(c.x, c.y) && Abs(c.x - x) + Abs(c.y - y) == 1
  {
    var up := Step(y - 1 >= 0, Cell(x, y - 1));
    var left := Step(x - 1 >= 0, Cell(x - 1, y));
    var down := Step(y + 1 < Height, Cell(x, y + 1));
    var right := Step(x + 1 < Width, Cell(x + 1, y));
    assert Candidates(King.Ordinal(), x, y) == up + left + down + right;
    assert c in up + left + down + right <==> c in up || c in left || c in down || c in right;
  }

  /** The king tries each of its neighbours once. */
  lemma KingNoRepeats(x: int, y: int)
    requires InBounds(x, y)
    ensures var cs := Candidates(King.Ordinal(), x, y);
      forall i, j :: 0 <= i < j < |cs| ==> cs[i] != cs[j]
  {
  }

  /** Every knight candidate is on the keypad, an L-shaped step away. */
  lemma KnightCandidates(x: int, y: int, c: Cell)
    requires InBounds(x, y)
    requires c in Candidates(Knight.Ordinal(), x, y)
    ensures InBounds(c.x, c.y)
    ensures (Abs(c.x - x) == 1 && Abs(c.y - y) == 2) || (Abs(c.x - x) == 2 && Abs(c.y - y) == 1)
  {
    var g1 := if y - 2 >= 0 then Step(x + 1 < Width, Cell(x + 1, y - 2)) + Step(x - 1 > 0, Cell(x - 1, y - 2)) else [];
    var g2 := if y + 2 < Height then Step(x + 1 < Width, Cell(x + 1, y + 2)) + Step(x - 1 >= 0, Cell(x - 1, y + 2)) else [];
    var g3 := if y - 1 >= 0 then Step(x + 2 < Width, Cell(x + 2, y - 1)) + Step(x - 2 > 0, Cell(x - 2, y - 1)) else [];
    var g4 := if y + 1 < Height then Step(x + 2 < Width, Cell(x + 2, y + 1)) + Step(x - 2 >= 0, Cell(x - 2, y + 1)) else [];
    assert Candidates(Knight.Ordinal(), x, y) == g1 + g2 + g3 + g4;
    assert c in g1 || c in g2 || c in g3 || c in g4;
  }

  /** The up-2/left-1 guard `x - 1 > 0` drops the move into column 0:
      the knight tries the cell two rows up and one column left exactly
      when that cell is on the keypad and not in column 0. So from key '8'
      it never tries key '1', and from key '0' never key '4'. */
  lemma KnightSkipsUpTwoLeftOne(x: int, y: int)
    requires InBounds(x, y)
    ensures Cell(x - 1, y - 2) in Candidates(Knight.Ordinal(), x, y) <==> x >= 2 && y >= 2
    ensures x == 1 && y >= 2 ==> InBounds(x - 1, y - 2) && Cell(x - 1, y - 2) !in Candidates(Knight.Ordinal(), x, y)
  {
    var g1 := if y - 2 >= 0 then Step(x + 1 < Width, Cell(x + 1, y - 2)) + Step(x - 1 > 0, Cell(x - 1, y - 2)) else [];
    var g2 := if y + 2 < Height then Step(x + 1 < Width, Cell(x + 1, y + 2)) + Step(x - 1 >= 0, Cell(x - 1, y + 2)) else [];
    var g3 := if y - 1 >= 0 then Step(x + 2 < Width, Cell(x + 2, y - 1)) + Step(x - 2 > 0, Cell(x - 2, y - 1)) else [];
    var g4 := if y + 1 < Height then Step(x + 2 < Width, Cell(x + 2, y + 1)) + Step(x - 2 >= 0, Cell(x - 2, y + 1)) else [];
    var c := Cell(x - 1, y - 2);
    assert Candidates(Knight.Ordinal(), x, y) == g1 + g2 + g3 + g4;
    assert c in g1 + g2 + g3 + g4 <==> c in g1 || c in g2 || c in g3 || c in g4;
    assert c !in g2 && c !in g3 && c !in g4;
    assert c in g1 <==> x >= 2 && y >= 2;
  }

  /** The knight tries exactly the on-keypad L jumps, except the two the
      `> 0` guards drop: up two and left one into column 0, and up one and
      left two. */
  lemma KnightShape(x: int, y: int, c: Cell)
    requires InBounds(x, y)
    ensures c in KnightMoves(x, y)
      <==> (InBounds(c.x, c.y)
            && ((Abs(c.x - x) == 1 && Abs(c.y - y) == 2) || (Abs(c.x - x) == 2 && Abs(c.y - y) == 1))
            && !(c == Cell(x - 1, y - 2) && c.x == 0) && c != Cell(x - 2, y - 1))
  {
    var g1 := if y - 2 >= 0 then Step(x + 1 < Width, Cell(x + 1, y - 2)) + Step(x - 1 > 0, Cell(x - 1, y - 2)) else [];
    var g2 := if y + 2 < Height then Step(x + 1 < Width, Cell(x + 1, y + 2)) + Step(x - 1 >= 0, Cell(x - 1, y + 2)) else [];
    var g3 := if y - 1 >= 0 then Step(x + 2 < Width, Cell(x + 2, y - 1)) + Step(x - 2 > 0, Cell(x - 2, y - 1)) else [];
    var g4 := if y + 1 < Height then Step(x + 2 < Width, Cell(x + 2, y + 1)) + Step(x - 2 >= 0, Cell(x - 2, y + 1)) else [];
    assert KnightMoves(x, y) == g1 + g2 + g3 + g4;
    assert c in g1 + g2 + g3 + g4 <==> c in g1 || c in g2 || c in g3 || c in g4;
  }

  /** The two column-1 instances: '8' never reaches '1', '0' never '4'. */
  lemma KnightSkipsKeys()
    ensures Cell(0, 0) !in Candidates(Knight.Ordinal(), 1, 2)
    ensures Cell(0, 1) !in Candidates(Knight.Ordinal(), 1, 3)
  {
    KnightSkipsUpTwoLeftOne(1, 2);
    KnightSkipsUpTwoLeftOne(1, 3);
  }

  /** The up-1/left-2 guard `x - 2 > 0` never holds on a keypad three
      columns wide, so that move is never tried from anywhere. */
  lemma KnightNeverUpOneLeftTwo(x: int, y: int)
    requires InBounds(x, y)
    ensures Cell(x - 2, y - 1) !in Candidates(Knight.Ordinal(), x, y)
  {
  }

  /** The bishop's south-west ray stops before the bottom row, because it
      bounds the row by the width; the south-east ray is the only way down
      to it. From '9' the bishop never tries '0'. */
  lemma BishopSouthWestBound(x: int, y: int)
    requires InBounds(x, y)
    ensures forall c :: c in Candidates(Bishop.Ordinal(), x, y) && c.y == Height - 1 ==> c.x > x
    ensures Cell(1, 3) !in Candidates(Bishop.Ordinal(), 2, 2)
  {
    var a := Ray(x - 1, y - 1, -1, -1, Width, Height);
    var b := Ray(x - 1, y + 1, -1, 1, Width, Width);
    var c := Ray(x + 1, y - 1, 1, -1, Width, Height);
    var d := Ray(x + 1, y + 1, 1, 1, Width, Height);
    RayCells(x - 1, y - 1, -1, -1, Width, Height);
    RayCells(x - 1, y + 1, -1, 1, Width, Width);
    RayCells(x + 1, y - 1, 1, -1, Width, Height);
    RayCells(x + 1, y + 1, 1, 1, Width, Height);
    assert Candidates(Bishop.Ordinal(), x, y) == a + b + c + d;
    assert Candidates(Bishop.Ordinal(), 2, 2) == [Cell(1, 1), Cell(0, 0)];
  }

  /** The bishop has no cardinal steps, so it can complete fewer numbers
      than the king: from key '2', at two digits, two against three. */
  lemma BishopBelowKing()
    ensures Walks(Bishop.Ordinal(), 1, 0, 1) == 2
    ensures Walks(King.Ordinal(), 1, 0, 1) == 3
  {
    var b := Bishop.Ordinal();
    assert Ray(0, -1, -1, -1, Width, Height) == [];
    assert Ray(0, 1, -1, 1, Width, Width) == [Cell(0, 1)];
    assert Ray(2, -1, 1, -1, Width, Height) == [];
    assert Ray(2, 1, 1, 1, Width, Height) == [Cell(2, 1)];
    assert Candidates(b, 1, 0) == [Cell(0, 1), Cell(2, 1)];
    assert Total(b, [Cell(2, 1)], 0) == 1;
    KingWalks(1, 0, 0);
  }

  /** The queen's "diagonal" rays take row and column from x alone, so from
      key '2' they repeat keys '1' and '3' already tried along the row. */
  lemma QueenRepeats()
    ensures Candidates(Queen.Ordinal(), 1, 0)
         == [Cell(1, 1), Cell(1, 2), Cell(1, 3), Cell(2, 0), Cell(0, 0), Cell(0, 0), Cell(0, 2), Cell(2, 0), Cell(2, 2)]
  {
    assert Ray(1, -1, 0, -1, Width, Height) == [];
    assert Ray(1, 1, 0, 1, Width, Height) == [Cell(1, 1), Cell(1, 2), Cell(1, 3)];
    assert Ray(2, 0, 1, 0, Width, Height) == [Cell(2, 0)];
    assert Ray(0, 0, -1, 0, Width, Height) == [Cell(0, 0)];
    assert QueenDiagonals(1) == [Cell(0, 0), Cell(0, 2), Cell(2, 0), Cell(2, 2)];
  }

  /** Both copies of a repeated cell are counted: the queen on '2' counts
      nine two-digit numbers, "21" and "23" twice each, although only
      seven different keys follow '2'. */
  lemma QueenCountsRepeats()
    ensures Walks(Queen.Ordinal(), 1, 0, 1) == 9
  {
    QueenRepeats();
  }

  // ---------------------------------------------------------------------
  // Relations between the counts.

  /** Walks of the rook: the sum over its four rays. */
  lemma RookWalks(x: int, y: int, m: nat)
    ensures Walks(Rook.Ordinal(), x, y, m + 1)
         == Total(Rook.Ordinal(), Ray(x + 1, y, 1, 0, Width, Height), m)
          + Total(Rook.Ordinal(), Ray(x - 1, y, -1, 0, Width, Height), m)
          + Total(Rook.Ordinal(), Ray(x, y + 1, 0, 1, Width, Height), m)
          + Total(Rook.Ordinal(), Ray(x, y - 1, 0, -1, Width, Height), m)
  {
    Total4(Rook.Ordinal(), Ray(x + 1, y, 1, 0, Width, Height), Ray(x - 1, y, -1, 0, Width, Height),
      Ray(x, y + 1, 0, 1, Width, Height), Ray(x, y - 1, 0, -1, Width, Height), m);
  }

  /** Walks of the queen: the sum over the rook's four rays (in the
      queen's order) and its four "diagonal" rays. */
  lemma QueenWalks(x: int, y: int, m: nat)
    ensures Walks(Queen.Ordinal(), x, y, m + 1)
         == Total(Queen.Ordinal(), Ray(x, y - 1, 0, -1, Width, Height), m)
          + Total(Queen.Ordinal(), Ray(x, y + 1, 0, 1, Width, Height), m)
          + Total(Queen.Ordinal(), Ray(x + 1, y, 1, 0, Width, Height), m)
          + Total(Queen.Ordinal(), Ray(x - 1, y, -1, 0, Width, Height), m)
          + Total(Queen.Ordinal(), QueenDiagonals(x), m)
  {
    var qn := Queen.Ordinal();
    var axes := Ray(x, y - 1, 0, -1, Width, Height) + Ray(x, y + 1, 0, 1, Width, Height)
      + Ray(x + 1, y, 1, 0, Width, Height) + Ray(x - 1, y, -1, 0, Width, Height);
    TotalAppend(qn, axes, QueenDiagonals(x), m);
    Total4(qn, Ray(x, y - 1, 0, -1, Width, Height), Ray(x, y + 1, 0, 1, Width, Height),
      Ray(x + 1, y, 1, 0, Width, Height), Ray(x - 1, y, -1, 0, Width, Height), m);
  }

  /** Walks of the king: one term per on-keypad neighbour. */
  lemma KingWalks(x: int, y: int, m: nat)
    ensures Walks(King.Ordinal(), x, y, m + 1)
         == (if y - 1 >= 0 then Reach(King.Ordinal(), Cell(x, y - 1), m) else 0)
          + (if x - 1 >= 0 then Reach(King.Ordinal(), Cell(x - 1, y), m) else 0)
          + (if y + 1 < Height then Reach(King.Ordinal(), Cell(x, y + 1), m) else 0)
          + (if x + 1 < Width then Reach(King.Ordinal(), Cell(x + 1, y), m) else 0)
  {
    var kg := King.Ordinal();
    var up := Step(y - 1 >= 0, Cell(x, y - 1));
    var left := Step(x - 1 >= 0, Cell(x - 1, y));
    var down := Step(y + 1 < Height, Cell(x, y + 1));
    var right := Step(x + 1 < Width, Cell(x + 1, y));
    Total4(kg, up, left, down, right, m);
  }

  /** Proof step for KingStepDominated: a list that starts with c sums to
      at least what t1 reaches from c, when t2 reaches at least as much
      from c. */
  lemma HeadBound(t1: int, t2: int, c: Cell, r: seq<Cell>, m: nat)
    requires r != [] && r[0] == c
    requires Reach(t1, c, m) <= Reach(t2, c, m)
    ensures Reach(t1, c, m) <= Total(t2, r, m)
  {
  }

  /** The rook's first cell on each ray is the king's step in that
      direction, so the rook completes at least as many numbers. */
  lemma {:induction false} RookDominatesKing(x: int, y: int, k: nat)
    ensures Walks(King.Ordinal(), x, y, k) <= Walks(Rook.Ordinal(), x, y, k)
    decreases k, 1
  {
    if k > 0 {
      var m := k - 1;
      RookWalks(x, y, m);
      KingWalks(x, y, m);
      if y - 1 >= 0 {
        KingStepDominated(Cell(x, y - 1), Ray(x, y - 1, 0, -1, Width, Height), m);
      }
      if x - 1 >= 0 {
        KingStepDominated(Cell(x - 1, y), Ray(x - 1, y, -1, 0, Width, Height), m);
      }
      if y + 1 < Height {
        KingStepDominated(Cell(x, y + 1), Ray(x, y + 1, 0, 1, Width, Height), m);
      }
      if x + 1 < Width {
        KingStepDominated(Cell(x + 1, y), Ray(x + 1, y, 1, 0, Width, Height), m);
      }
    }
  }

  /** The queen completes at least as many numbers as the king. */
  lemma QueenDominatesKing(x: int, y: int, k: nat)
    ensures Walks(King.Ordinal(), x, y, k) <= Walks(Queen.Ordinal(), x, y, k)
  {
    RookDominatesKing(x, y, k);
    QueenDominatesRook(x, y, k);
  }

  /** The pawn's one move is the king's up step, so the king completes at
      least as many numbers as the pawn. */
  lemma {:induction false} KingDominatesPawn(x: int, y: int, k: nat)
    ensures Walks(Pawn.Ordinal(), x, y, k) <= Walks(King.Ordinal(), x, y, k)
  {
    if k > 0 {
      var m := k - 1;
      KingWalks(x, y, m);
      if y - 1 >= 0 {
        var up := Cell(x, y - 1);
        KingDominatesPawn(x, y - 1, m);
        assert Candidates(Pawn.Ordinal(), x, y) == [up];
        assert [up][1..] == [];
        assert Walks(Pawn.Ordinal(), x, y, k) == Total(Pawn.Ordinal(), [up], m);
        assert Total(Pawn.Ordinal(), [up], m) == Reach(Pawn.Ordinal(), up, m) + Total(Pawn.Ordinal(), [], m);
        assert Reach(Pawn.Ordinal(), up, m) <= Reach(King.Ordinal(), up, m);
      } else {
        assert Candidates(Pawn.Ordinal(), x, y) == [];
        assert Walks(Pawn.Ordinal(), x, y, k) == Total(Pawn.Ordinal(), [], m);
      }
    }
  }

  /** One king step c, against the rook ray r that starts with it. */
  lemma {:induction false} KingStepDominated(c: Cell, r: seq<Cell>, m: nat)
    requires r != [] && r[0] == c
    ensures Reach(King.Ordinal(), c, m) <= Total(Rook.Ordinal(), r, m)
    decreases m + 1, 0
  {
    RookDominatesKing(c.x, c.y, m);
    HeadBound(King.Ordinal(), Rook.Ordinal(), c, r, m);
  }

  /** The queen tries every rook candidate (and more), so it completes at
      least as many numbers as the rook. */
  lemma {:induction false} QueenDominatesRook(x: int, y: int, k: nat)
    ensures Walks(Rook.Ordinal(), x, y, k) <= Walks(Queen.Ordinal(), x, y, k)
    decreases k, 1
  {
    if k > 0 {
      var m := k - 1;
      var rk, qn := Rook.Ordinal(), Queen.Ordinal();
      RookWalks(x, y, m);
      QueenWalks(x, y, m);
      RayDominates(x + 1, y, 1, 0, m);
      RayDominates(x - 1, y, -1, 0, m);
      RayDominates(x, y + 1, 0, 1, m);
      RayDominates(x, y - 1, 0, -1, m);
    }
  }

  /** One ray of the rook, counted for the queen with m digits to go, given
      the dominance for m (the inductive step of QueenDominatesRook). */
  lemma RayDominates(i: int, j: int, di: int, dj: int, m: nat)
    requires -1 <= di <= 1 && -1 <= dj <= 1 && (di != 0 || dj != 0)
    ensures Total(Rook.Ordinal(), Ray(i, j, di, dj, Width, Height), m)
         <= Total(Queen.Ordinal(), Ray(i, j, di, dj, Width, Height), m)
    decreases m + 1, 0
  {
    var r := Ray(i, j, di, dj, Width, Height);
    forall n | 0 <= n < |r|
      ensures Walks(Rook.Ordinal(), r[n].x, r[n].y, m) <= Walks(Queen.Ordinal(), r[n].x, r[n].y, m)
    {
      QueenDominatesRook(r[n].x, r[n].y, m);
    }
    TotalMono(Rook.Ordinal(), Queen.Ordinal(), r, m);
  }

  /** The sweep from key '2' visits the eight start cells '2' to '9'. */
  lemma StartSumCells(t: int, k: nat)
    ensures StartSum(t, 0, k)
         == Walks(t, 1, 0, k) + Walks(t, 2, 0, k) + Walks(t, 0, 1, k) + Walks(t, 1, 1, k)
          + Walks(t, 2, 1, k) + Walks(t, 0, 2, k) + Walks(t, 1, 2, k) + Walks(t, 2, 2, k)
  {
    assert StartSum(t, 8, k) == 0;
    assert StartSum(t, 6, k) == Walks(t, 1, 2, k) + Walks(t, 2, 2, k);
    assert StartSum(t, 4, k) == Walks(t, 2, 1, k) + Walks(t, 0, 2, k) + StartSum(t, 6, k);
    assert StartSum(t, 2, k) == Walks(t, 0, 1, k) + Walks(t, 1, 1, k) + StartSum(t, 4, k);
  }

  /** With one digit to dial every start cell completes exactly one number,
      so the sweep counts one per start cell. */
  lemma LengthOneSweep(t: int)
    ensures StartSum(t, 0, 0) == |Starts|
  {
    StartSumCells(t, 0);
  }
}
