/** The two classes of the game: a Piece, a mutable position record with a
    fixed type, and the Board that drives every piece from every start
    cell through the move generator and counts the completed numbers. */
module Game {
  import opened Keypad
  import opened Moves
  import opened MoveFacts

  /** Number of pieces of type u in ps, counted from the back so that it
      grows with a loop over ps. */
  ghost function Count(ps: seq<Piece>, u: int): nat {
    if ps == [] then 0 else Count(ps[..|ps| - 1], u) + (if ps[|ps| - 1].pieceType == u then 1 else 0)
  }

  /** What counter u is owed for the pieces of type u in ps that walk
      from (x, y): the walks of length k, once per such piece. */
  ghost function Due(ps: seq<Piece>, u: int, x: int, y: int, k: nat): nat {
    Count(ps, u) * Walks(u, x, y, k)
  }

  /** Running piece i of ps adds its walks to counter u exactly when it is
      of type u. */
  lemma DueStep(ps: seq<Piece>, i: int, u: int, x: int, y: int, k: nat)
    requires 0 <= i < |ps|
    ensures Due(ps[..i + 1], u, x, y, k)
         == Due(ps[..i], u, x, y, k) + (if ps[i].pieceType == u then Walks(u, x, y, k) else 0)
  {
    assert ps[..i + 1][..i] == ps[..i];
    Distribute(Walks(u, x, y, k), Count(ps[..i], u), if ps[i].pieceType == u then 1 else 0);
  }

  /** What counter u is owed for the pieces of type u in ps that walk from
      start cell number i and from every later one. */
  ghost function SweepDue(ps: seq<Piece>, u: int, i: int, k: nat): nat {
    Count(ps, u) * StartSum(u, i, k)
  }

  /** Walking ps from start cell i and then from every later start cell
      is owed a walk from cell i plus what the later cells are owed. */
  lemma DueFrom(ps: seq<Piece>, u: int, i: int, k: nat)
    requires 0 <= i < |Starts|
    ensures SweepDue(ps, u, i, k) == Due(ps, u, Starts[i].x, Starts[i].y, k) + SweepDue(ps, u, i + 1, k)
  {
    Distribute(Count(ps, u), Walks(u, Starts[i].x, Starts[i].y, k), StartSum(u, i + 1, k));
  }

  /** p stands where its walks of length k from (x, y) leave it. */
  ghost predicate Settled(p: Piece, x: int, y: int, k: nat)
    reads p
  {
    Cell(p.boardX, p.boardY) == Settle(p.pieceType, x, y, k)
  }

  /** Proof step for DueStep and DueFrom: multiplication over a sum. */
  lemma Distribute(c: int, a: int, b: int)
    ensures c * (a + b) == c * a + c * b
  {
  }

  class Piece {
    /** The piece's type; only the constructor sets it. */
    const pieceType: int
    var boardX: int
    var boardY: int

    /** A new piece of the given type, at (0, 0) like the zeroed fields of
        the object it models. */
    constructor (t: int)
      ensures Type() == t
      ensures BoardX() == 0 && BoardY() == 0
    {
      pieceType := t;
      boardX := 0;
      boardY := 0;
    }

    function BoardX(): int
      reads this
    {
      boardX
    }

    function BoardY(): int
      reads this
    {
      boardY
    }

    function Type(): int {
      pieceType
    }

    method SetPosition(x: int, y: int)
      modifies this
      ensures BoardX() == x && BoardY() == y
    {
      boardX := x;
      boardY := y;
    }

    /** Hands the piece to the board, which places it on its current start
        cell and appends it to its players. */
    method AddToBoard(board: Board)
      modifies this, board`players
      ensures board.players == old(board.players) + [this]
      ensures BoardX() == board.startX && BoardY() == board.startY
    {
      board.AddPiece(this);
    }
  }

  class Board {
    const phoneNumberLength: int
    var startX: int
    var startY: int
    var initialStartX: int
    var initialStartY: int
    var players: seq<Piece>
    var numbers: array<int>
    var phoneNumber: string

    /** One counter per piece type, the cursor on a start cell, the first
        start cell remembered, and the number begun with the cursor's label. */
    ghost predicate Valid()
      reads this`startX, this`startY, this`initialStartX, this`initialStartY, this`phoneNumber, this`numbers
    {
      numbers.Length == PlayerCount
      && InBounds(startX, startY) && IsStartCell(startX, startY)
      && Cell(initialStartX, initialStartY) == Starts[0]
      && phoneNumber == [Label(startX, startY)]
    }

    /** The state InitializeBoard leaves: no players, every counter zero,
        and the cursor on key '2', the first start cell. */
    ghost predicate Initial()
      reads this, numbers
    {
      Valid() && players == []
      && (forall u :: 0 <= u < numbers.Length ==> numbers[u] == 0)
      && Cell(startX, startY) == Starts[0] && phoneNumber == "2"
    }

    /** A board for seven-digit numbers. */
    constructor Default()
      ensures phoneNumberLength == 7
      ensures Initial() && fresh(numbers)
    {
      phoneNumberLength := 7;
      // The array field needs a value before the object exists;
      // InitializeBoard allocates the counters.
      numbers := new int[0];
      new;
      InitializeBoard();
    }

    constructor (pnLength: int)
      ensures phoneNumberLength == pnLength
      ensures Initial() && fresh(numbers)
    {
      phoneNumberLength := pnLength;
      numbers := new int[0];
      new;
      InitializeBoard();
    }

    /** Finds the first start cell in row-major order, remembers it, begins
        the number with its label and zeroes the counters. */
    method InitializeBoard()
      modifies this
      ensures Initial() && fresh(numbers)
      ensures forall x, y :: InBounds(x, y) && Pos(x, y) < Pos(startX, startY) ==> !IsStartCell(x, y)
      ensures Cell(initialStartX, initialStartY) == Cell(startX, startY)
    {
      var breakOut := false;
      players := [];
      numbers := new int[PlayerCount];
      var i := 0;
      while i < Height
        invariant 0 <= i <= Height
        invariant !breakOut ==> forall x, y :: 0 <= y < i && 0 <= x < Width ==> !IsStartCell(x, y)
        invariant breakOut ==> (Cell(startX, startY) in Starts
          && forall x, y :: InBounds(x, y) && Pos(x, y) < Pos(startX, startY) ==> Cell(x, y) !in Starts)
        modifies this`startX, this`startY
      {
        var j := 0;
        while j < Width
          invariant 0 <= j <= Width
          invariant !breakOut ==> forall x :: 0 <= x < j ==> !IsStartCell(x, i)
          invariant !breakOut ==> forall x, y :: 0 <= y < i && 0 <= x < Width ==> !IsStartCell(x, y)
          invariant breakOut ==> (Cell(startX, startY) in Starts
            && forall x, y :: InBounds(x, y) && Pos(x, y) < Pos(startX, startY) ==> Cell(x, y) !in Starts)
          modifies this`startX, this`startY
        {
          if IsStartCell(j, i) {
            startX := j;
            startY := i;
            breakOut := true;
            break;
          }
          j := j + 1;
        }
        if breakOut {
          break;
        }
        i := i + 1;
      }
      assert IsStartCell(1, 0);
      assert !IsStartCell(0, 0);
      initialStartX := startX;
      initialStartY := startY;
      phoneNumber := [Label(startX, startY)];
      var k := 0;
      while k < numbers.Length
        invariant 0 <= k <= numbers.Length
        invariant forall u :: 0 <= u < k ==> numbers[u] == 0
        modifies numbers
      {
        numbers[k] := 0;
        k := k + 1;
      }
    }

    /** Places the piece on the current start cell and appends it. */
    method AddPiece(player: Piece)
      modifies player, this`players
      ensures players == old(players) + [player]
      ensures player.BoardX() == startX && player.BoardY() == startY
    {
      player.SetPosition(startX, startY);
      players := players + [player];
    }

    /** Drops a move onto an invalid cell; otherwise moves the piece there
        and goes on with the number extended by that cell's label. */
    method ValidateMove(player: Piece, currentNumber: string, newX: int, newY: int)
      requires numbers.Length == PlayerCount && IsPlayerType(player.pieceType)
      requires InBounds(newX, newY) && |currentNumber| < phoneNumberLength
      modifies numbers, player
      ensures numbers[player.pieceType] == old(numbers[player.pieceType])
        + Reach(player.pieceType, Cell(newX, newY), phoneNumberLength - |currentNumber| - 1)
      ensures forall u :: 0 <= u < numbers.Length && u != player.pieceType ==> numbers[u] == old(numbers[u])
      ensures Cell(player.boardX, player.boardY)
           == Land(player.pieceType, Cell(newX, newY), phoneNumberLength - |currentNumber| - 1,
                old(Cell(player.boardX, player.boardY)))
      decreases phoneNumberLength - |currentNumber|, 0
    {
      if IsSpaceInvalid(newX, newY) {
        return;
      }
      player.SetPosition(newX, newY);
      var next := currentNumber + [Label(player.BoardX(), player.BoardY())];
      PhoneBook(player, next);
    }

    /** One guarded move of the knight's and king's arms: ValidateMove when
        the guard holds, nothing otherwise. */
    method TryMove(player: Piece, currentNumber: string, guard: bool, newX: int, newY: int)
      requires numbers.Length == PlayerCount && IsPlayerType(player.pieceType)
      requires (guard ==> InBounds(newX, newY)) && |currentNumber| < phoneNumberLength
      modifies numbers, player
      ensures numbers[player.pieceType] == old(numbers[player.pieceType])
        + Gain(player.pieceType, guard, Cell(newX, newY), phoneNumberLength - |currentNumber| - 1)
      ensures forall u :: 0 <= u < numbers.Length && u != player.pieceType ==> numbers[u] == old(numbers[u])
      ensures Cell(player.boardX, player.boardY)
           == After(player.pieceType, guard, Cell(newX, newY),
                phoneNumberLength - |currentNumber| - 1, old(Cell(player.boardX, player.boardY)))
      decreases phoneNumberLength - |currentNumber|, 1
    {
      if guard {
        ValidateMove(player, currentNumber, newX, newY);
      }
    }

    /** Counts, for the piece's type, every way the piece on its current
        cell can complete the number begun with currentNumber, and leaves
        the piece where its last walk ends. */
    method PhoneBook(player: Piece, currentNumber: string)
      requires numbers.Length == PlayerCount
      requires InBounds(player.boardX, player.boardY) && |currentNumber| <= phoneNumberLength
      requires IsPlayerType(player.pieceType) || |currentNumber| < phoneNumberLength
      modifies numbers, player
      ensures IsPlayerType(player.pieceType) ==>
        numbers[player.pieceType] == old(numbers[player.pieceType])
          + Walks(player.pieceType, old(player.boardX), old(player.boardY), phoneNumberLength - |currentNumber|)
      ensures forall u :: 0 <= u < numbers.Length && u != player.pieceType ==> numbers[u] == old(numbers[u])
      ensures Cell(player.boardX, player.boardY)
           == Settle(player.pieceType, old(player.boardX), old(player.boardY), phoneNumberLength - |currentNumber|)
      decreases phoneNumberLength - |currentNumber|, 4
    {
      if |currentNumber| == phoneNumberLength {
        numbers[player.Type()] := numbers[player.Type()] + 1;
        return;
      }
      var t := player.Type();
      if t == Pawn.Ordinal() {
        MovePawn(player, currentNumber);
      } else if t == Rook.Ordinal() {
        MoveRook(player, currentNumber);
      } else if t == Knight.Ordinal() {
        MoveKnight(player, currentNumber);
      } else if t == Bishop.Ordinal() {
        MoveBishop(player, currentNumber);
      } else if t == Queen.Ordinal() {
        MoveQueen(player, currentNumber);
      } else if t == King.Ordinal() {
        MoveKing(player, currentNumber);
      } else {
        assert SettleOnward(t, player.boardX, player.boardY, phoneNumberLength - |currentNumber| - 1)
            == Cell(player.boardX, player.boardY);
      }
    }

    /** One `for` loop of the move generator: tries the cells from (i0, j0)
        in steps of (di, dj) while each coordinate is within its bound. */
    method WalkRay(player: Piece, currentNumber: string, i0: int, j0: int, di: int, dj: int, iEnd: int, jEnd: int)
      requires numbers.Length == PlayerCount && IsPlayerType(player.pieceType)
      requires |currentNumber| < phoneNumberLength
      requires -1 <= di <= 1 && -1 <= dj <= 1 && (di != 0 || dj != 0)
      requires iEnd <= Width && jEnd <= Height
      requires (di <= 0 ==> i0 < Width) && (di >= 0 ==> 0 <= i0)
      requires (dj <= 0 ==> j0 < Height) && (dj >= 0 ==> 0 <= j0)
      modifies numbers, player
      ensures numbers[player.pieceType] == old(numbers[player.pieceType])
        + Total(player.pieceType, Ray(i0, j0, di, dj, iEnd, jEnd), phoneNumberLength - |currentNumber| - 1)
      ensures forall u :: 0 <= u < numbers.Length && u != player.pieceType ==> numbers[u] == old(numbers[u])
      ensures Cell(player.boardX, player.boardY)
           == SettleAlong(player.pieceType, Ray(i0, j0, di, dj, iEnd, jEnd),
                phoneNumberLength - |currentNumber| - 1, old(Cell(player.boardX, player.boardY)))
      decreases phoneNumberLength - |currentNumber|, 1
    {
      ghost var t, m := player.pieceType, phoneNumberLength - |currentNumber| - 1;
      ghost var p0 := Cell(player.boardX, player.boardY);
      ghost var acc := 0;
      var i, j := i0, j0;
      while Within(i, di, iEnd) && Within(j, dj, jEnd)
        invariant (di <= 0 ==> i < Width) && (di >= 0 ==> 0 <= i)
        invariant (dj <= 0 ==> j < Height) && (dj >= 0 ==> 0 <= j)
        invariant numbers[t] == old(numbers[t]) + acc
        invariant forall u :: 0 <= u < numbers.Length && u != t ==> numbers[u] == old(numbers[u])
        invariant acc + RayTotal(t, i, j, di, dj, iEnd, jEnd, m) == RayTotal(t, i0, j0, di, dj, iEnd, jEnd, m)
        invariant RaySettle(t, i0, j0, di, dj, iEnd, jEnd, m, p0)
               == RaySettle(t, i, j, di, dj, iEnd, jEnd, m, Cell(player.boardX, player.boardY))
        decreases if di < 0 then i + 1 else if di > 0 then iEnd - i else if dj < 0 then j + 1 else jEnd - j
      {
        ValidateMove(player, currentNumber, i, j);
        acc := acc + Reach(t, Cell(i, j), m);
        i, j := i + di, j + dj;
      }
      RayTotalIsTotal(t, i0, j0, di, dj, iEnd, jEnd, m);
      RaySettleIsSettle(t, i0, j0, di, dj, iEnd, jEnd, m, p0);
    }

    /** The pawn's arm: one step up. */
    method MovePawn(player: Piece, currentNumber: string)
      requires numbers.Length == PlayerCount && player.pieceType == Pawn.Ordinal()
      requires InBounds(player.boardX, player.boardY) && |currentNumber| < phoneNumberLength
      modifies numbers, player
      ensures numbers[player.pieceType] == old(numbers[player.pieceType])
        + Total(player.pieceType, PawnMoves(old(player.boardX), old(player.boardY)), phoneNumberLength - |currentNumber| - 1)
      ensures forall u :: 0 <= u < numbers.Length && u != player.pieceType ==> numbers[u] == old(numbers[u])
      ensures Cell(player.boardX, player.boardY)
           == SettleAlong(player.pieceType, PawnMoves(old(player.boardX), old(player.boardY)),
                phoneNumberLength - |currentNumber| - 1, old(Cell(player.boardX, player.boardY)))
      decreases phoneNumberLength - |currentNumber|, 3
    {
      var pawnX, pawnY := player.BoardX(), player.BoardY();
      if pawnY - 1 >= 0 {
        ValidateMove(player, currentNumber, pawnX, pawnY - 1);
        assert [Cell(pawnX, pawnY - 1)][1..] == [];
      }
    }

    /** The rook's arm: right, left, down, up, every distance. */
    method MoveRook(player: Piece, currentNumber: string)
      requires numbers.Length == PlayerCount && player.pieceType == Rook.Ordinal()
      requires InBounds(player.boardX, player.boardY) && |currentNumber| < phoneNumberLength
      modifies numbers, player
      ensures numbers[player.pieceType] == old(numbers[player.pieceType])
        + Total(player.pieceType, RookMoves(old(player.boardX), old(player.boardY)), phoneNumberLength - |currentNumber| - 1)
      ensures forall u :: 0 <= u < numbers.Length && u != player.pieceType ==> numbers[u] == old(numbers[u])
      ensures Cell(player.boardX, player.boardY)
           == SettleAlong(player.pieceType, RookMoves(old(player.boardX), old(player.boardY)),
                phoneNumberLength - |currentNumber| - 1, old(Cell(player.boardX, player.boardY)))
      decreases phoneNumberLength - |currentNumber|, 3
    {
      ghost var t, m := player.pieceType, phoneNumberLength - |currentNumber| - 1;
      ghost var p0 := Cell(player.boardX, player.boardY);
      var rookX, rookY := player.BoardX(), player.BoardY();
      WalkRay(player, currentNumber, rookX + 1, rookY, 1, 0, Width, Height);
      WalkRay(player, currentNumber, rookX - 1, rookY, -1, 0, Width, Height);
      WalkRay(player, currentNumber, rookX, rookY + 1, 0, 1, Width, Height);
      WalkRay(player, currentNumber, rookX, rookY - 1, 0, -1, Width, Height);
      Total4(t, Ray(rookX + 1, rookY, 1, 0, Width, Height), Ray(rookX - 1, rookY, -1, 0, Width, Height),
        Ray(rookX, rookY + 1, 0, 1, Width, Height), Ray(rookX, rookY - 1, 0, -1, Width, Height), m);
      FourSettles(t, Ray(rookX + 1, rookY, 1, 0, Width, Height), Ray(rookX - 1, rookY, -1, 0, Width, Height),
        Ray(rookX, rookY + 1, 0, 1, Width, Height), Ray(rookX, rookY - 1, 0, -1, Width, Height), m, p0);
    }

    /** The knight's arm: up 2, down 2, up 1, down 1, each then right and
        left, with the `> 0` guards on two of the left steps. */
    method MoveKnight(player: Piece, currentNumber: string)
      requires numbers.Length == PlayerCount && player.pieceType == Knight.Ordinal()
      requires InBounds(player.boardX, player.boardY) && |currentNumber| < phoneNumberLength
      modifies numbers, player
      ensures numbers[player.pieceType] == old(numbers[player.pieceType])
        + Total(player.pieceType, KnightMoves(old(player.boardX), old(player.boardY)), phoneNumberLength - |currentNumber| - 1)
      ensures forall u :: 0 <= u < numbers.Length && u != player.pieceType ==> numbers[u] == old(numbers[u])
      ensures Cell(player.boardX, player.boardY)
           == SettleAlong(player.pieceType, KnightMoves(old(player.boardX), old(player.boardY)),
                phoneNumberLength - |currentNumber| - 1, old(Cell(player.boardX, player.boardY)))
      decreases phoneNumberLength - |currentNumber|, 3
    {
      ghost var t, m := player.pieceType, phoneNumberLength - |currentNumber| - 1;
      ghost var p0 := Cell(player.boardX, player.boardY);
      var knightX, knightY := player.BoardX(), player.BoardY();
      TryKnightRow(player, currentNumber, knightY - 2 >= 0,
        knightX + 1 < Width, knightX + 1, knightY - 2, knightX - 1 > 0, knightX - 1, knightY - 2);
      TryKnightRow(player, currentNumber, knightY + 2 < Height,
        knightX + 1 < Width, knightX + 1, knightY + 2, knightX - 1 >= 0, knightX - 1, knightY + 2);
      TryKnightRow(player, currentNumber, knightY - 1 >= 0,
        knightX + 2 < Width, knightX + 2, knightY - 1, knightX - 2 > 0, knightX - 2, knightY - 1);
      TryKnightRow(player, currentNumber, knightY + 1 < Height,
        knightX + 2 < Width, knightX + 2, knightY + 1, knightX - 2 >= 0, knightX - 2, knightY + 1);
      KnightTotals(t, knightX, knightY, m);
      KnightSettles(t, knightX, knightY, m, p0);
    }

    /** One block of the knight's arm: when the target row is on the
        keypad, the right move and then the left move, each under its guard. */
    method TryKnightRow(player: Piece, currentNumber: string, rowOk: bool,
                        rightOk: bool, rightX: int, rightY: int, leftOk: bool, leftX: int, leftY: int)
      requires numbers.Length == PlayerCount && IsPlayerType(player.pieceType)
      requires rowOk && rightOk ==> InBounds(rightX, rightY)
      requires rowOk && leftOk ==> InBounds(leftX, leftY)
      requires |currentNumber| < phoneNumberLength
      modifies numbers, player
      ensures numbers[player.pieceType] == old(numbers[player.pieceType])
        + RowGain(player.pieceType, rowOk, rightOk, Cell(rightX, rightY), leftOk, Cell(leftX, leftY), phoneNumberLength - |currentNumber| - 1)
      ensures forall u :: 0 <= u < numbers.Length && u != player.pieceType ==> numbers[u] == old(numbers[u])
      ensures Cell(player.boardX, player.boardY)
           == RowAfter(player.pieceType, rowOk, rightOk, Cell(rightX, rightY), leftOk, Cell(leftX, leftY),
                phoneNumberLength - |currentNumber| - 1, old(Cell(player.boardX, player.boardY)))
      decreases phoneNumberLength - |currentNumber|, 2
    {
      if rowOk {
        TryMove(player, currentNumber, rightOk, rightX, rightY);
        TryMove(player, currentNumber, leftOk, leftX, leftY);
      }
    }

    /** The bishop's arm: north-west, south-west (rows bounded by the
        width), north-east, south-east. */
    method MoveBishop(player: Piece, currentNumber: string)
      requires numbers.Length == PlayerCount && player.pieceType == Bishop.Ordinal()
      requires InBounds(player.boardX, player.boardY) && |currentNumber| < phoneNumberLength
      modifies numbers, player
      ensures numbers[player.pieceType] == old(numbers[player.pieceType])
        + Total(player.pieceType, BishopMoves(old(player.boardX), old(player.boardY)), phoneNumberLength - |currentNumber| - 1)
      ensures forall u :: 0 <= u < numbers.Length && u != player.pieceType ==> numbers[u] == old(numbers[u])
      ensures Cell(player.boardX, player.boardY)
           == SettleAlong(player.pieceType, BishopMoves(old(player.boardX), old(player.boardY)),
                phoneNumberLength - |currentNumber| - 1, old(Cell(player.boardX, player.boardY)))
      decreases phoneNumberLength - |currentNumber|, 3
    {
      ghost var t, m := player.pieceType, phoneNumberLength - |currentNumber| - 1;
      ghost var p0 := Cell(player.boardX, player.boardY);
      var bishopX, bishopY := player.BoardX(), player.BoardY();
      WalkRay(player, currentNumber, bishopX - 1, bishopY - 1, -1, -1, Width, Height);
      WalkRay(player, currentNumber, bishopX - 1, bishopY + 1, -1, 1, Width, Width);
      WalkRay(player, currentNumber, bishopX + 1, bishopY - 1, 1, -1, Width, Height);
      WalkRay(player, currentNumber, bishopX + 1, bishopY + 1, 1, 1, Width, Height);
      Total4(t, Ray(bishopX - 1, bishopY - 1, -1, -1, Width, Height), Ray(bishopX - 1, bishopY + 1, -1, 1, Width, Width),
        Ray(bishopX + 1, bishopY - 1, 1, -1, Width, Height), Ray(bishopX + 1, bishopY + 1, 1, 1, Width, Height), m);
      FourSettles(t, Ray(bishopX - 1, bishopY - 1, -1, -1, Width, Height), Ray(bishopX - 1, bishopY + 1, -1, 1, Width, Width),
        Ray(bishopX + 1, bishopY - 1, 1, -1, Width, Height), Ray(bishopX + 1, bishopY + 1, 1, 1, Width, Height), m, p0);
    }

    /** The queen's arm: up, down, right, left, then four "diagonals" whose
        row and column both start from queenX. */
    method MoveQueen(player: Piece, currentNumber: string)
      requires numbers.Length == PlayerCount && player.pieceType == Queen.Ordinal()
      requires InBounds(player.boardX, player.boardY) && |currentNumber| < phoneNumberLength
      modifies numbers, player
      ensures numbers[player.pieceType] == old(numbers[player.pieceType])
        + Total(player.pieceType, QueenMoves(old(player.boardX), old(player.boardY)), phoneNumberLength - |currentNumber| - 1)
      ensures forall u :: 0 <= u < numbers.Length && u != player.pieceType ==> numbers[u] == old(numbers[u])
      ensures Cell(player.boardX, player.boardY)
           == SettleAlong(player.pieceType, QueenMoves(old(player.boardX), old(player.boardY)),
                phoneNumberLength - |currentNumber| - 1, old(Cell(player.boardX, player.boardY)))
      decreases phoneNumberLength - |currentNumber|, 3
    {
      ghost var t, m := player.pieceType, phoneNumberLength - |currentNumber| - 1;
      ghost var p0 := Cell(player.boardX, player.boardY);
      var queenX, queenY := player.BoardX(), player.BoardY();
      MoveQueenLines(player, currentNumber);
      MoveQueenDiagonals(player, currentNumber, queenX);
      TotalAppend(t, QueenLines(queenX, queenY), QueenDiagonals(queenX), m);
      SettleAppend(t, QueenLines(queenX, queenY), QueenDiagonals(queenX), m, p0);
    }

    /** The first half of the queen's arm: up, down, right, left. */
    method MoveQueenLines(player: Piece, currentNumber: string)
      requires numbers.Length == PlayerCount && IsPlayerType(player.pieceType)
      requires InBounds(player.boardX, player.boardY) && |currentNumber| < phoneNumberLength
      modifies numbers, player
      ensures numbers[player.pieceType] == old(numbers[player.pieceType])
        + Total(player.pieceType, QueenLines(old(player.boardX), old(player.boardY)), phoneNumberLength - |currentNumber| - 1)
      ensures forall u :: 0 <= u < numbers.Length && u != player.pieceType ==> numbers[u] == old(numbers[u])
      ensures Cell(player.boardX, player.boardY)
           == SettleAlong(player.pieceType, QueenLines(old(player.boardX), old(player.boardY)),
                phoneNumberLength - |currentNumber| - 1, old(Cell(player.boardX, player.boardY)))
      decreases phoneNumberLength - |currentNumber|, 2
    {
      ghost var t, m := player.pieceType, phoneNumberLength - |currentNumber| - 1;
      ghost var p0 := Cell(player.boardX, player.boardY);
      var queenX, queenY := player.BoardX(), player.BoardY();
      WalkRay(player, currentNumber, queenX, queenY - 1, 0, -1, Width, Height);
      WalkRay(player, currentNumber, queenX, queenY + 1, 0, 1, Width, Height);
      WalkRay(player, currentNumber, queenX + 1, queenY, 1, 0, Width, Height);
      WalkRay(player, currentNumber, queenX - 1, queenY, -1, 0, Width, Height);
      Total4(t, Ray(queenX, queenY - 1, 0, -1, Width, Height), Ray(queenX, queenY + 1, 0, 1, Width, Height),
        Ray(queenX + 1, queenY, 1, 0, Width, Height), Ray(queenX - 1, queenY, -1, 0, Width, Height), m);
      FourSettles(t, Ray(queenX, queenY - 1, 0, -1, Width, Height), Ray(queenX, queenY + 1, 0, 1, Width, Height),
        Ray(queenX + 1, queenY, 1, 0, Width, Height), Ray(queenX - 1, queenY, -1, 0, Width, Height), m, p0);
    }

    /** The second half of the queen's arm: four "diagonal" rays whose row
        and column both start from the queen's column queenX. */
    method MoveQueenDiagonals(player: Piece, currentNumber: string, queenX: int)
      requires numbers.Length == PlayerCount && IsPlayerType(player.pieceType)
      requires 0 <= queenX < Width && |currentNumber| < phoneNumberLength
      modifies numbers, player
      ensures numbers[player.pieceType] == old(numbers[player.pieceType])
        + Total(player.pieceType, QueenDiagonals(queenX), phoneNumberLength - |currentNumber| - 1)
      ensures forall u :: 0 <= u < numbers.Length && u != player.pieceType ==> numbers[u] == old(numbers[u])
      ensures Cell(player.boardX, player.boardY)
           == SettleAlong(player.pieceType, QueenDiagonals(queenX),
                phoneNumberLength - |currentNumber| - 1, old(Cell(player.boardX, player.boardY)))
      decreases phoneNumberLength - |currentNumber|, 2
    {
      ghost var t, m := player.pieceType, phoneNumberLength - |currentNumber| - 1;
      ghost var p0 := Cell(player.boardX, player.boardY);
      WalkRay(player, currentNumber, queenX - 1, queenX - 1, -1, -1, Width, Height);
      WalkRay(player, currentNumber, queenX - 1, queenX + 1, -1, 1, Width, Width);
      WalkRay(player, currentNumber, queenX + 1, queenX - 1, 1, -1, Width, Height);
      WalkRay(player, currentNumber, queenX + 1, queenX + 1, 1, 1, Width, Height);
      Total4(t, Ray(queenX - 1, queenX - 1, -1, -1, Width, Height), Ray(queenX - 1, queenX + 1, -1, 1, Width, Width),
        Ray(queenX + 1, queenX - 1, 1, -1, Width, Height), Ray(queenX + 1, queenX + 1, 1, 1, Width, Height), m);
      FourSettles(t, Ray(queenX - 1, queenX - 1, -1, -1, Width, Height), Ray(queenX - 1, queenX + 1, -1, 1, Width, Width),
        Ray(queenX + 1, queenX - 1, 1, -1, Width, Height), Ray(queenX + 1, queenX + 1, 1, 1, Width, Height), m, p0);
    }

    /** The king's arm: up, left, down, right, one step each. */
    method MoveKing(player: Piece, currentNumber: string)
      requires numbers.Length == PlayerCount && player.pieceType == King.Ordinal()
      requires InBounds(player.boardX, player.boardY) && |currentNumber| < phoneNumberLength
      modifies numbers, player
      ensures numbers[player.pieceType] == old(numbers[player.pieceType])
        + Total(player.pieceType, KingMoves(old(player.boardX), old(player.boardY)), phoneNumberLength - |currentNumber| - 1)
      ensures forall u :: 0 <= u < numbers.Length && u != player.pieceType ==> numbers[u] == old(numbers[u])
      ensures Cell(player.boardX, player.boardY)
           == SettleAlong(player.pieceType, KingMoves(old(player.boardX), old(player.boardY)),
                phoneNumberLength - |currentNumber| - 1, old(Cell(player.boardX, player.boardY)))
      decreases phoneNumberLength - |currentNumber|, 3
    {
      ghost var t, m := player.pieceType, phoneNumberLength - |currentNumber| - 1;
      ghost var p0 := Cell(player.boardX, player.boardY);
      var kingX, kingY := player.BoardX(), player.BoardY();
      TryMove(player, currentNumber, kingY - 1 >= 0, kingX, kingY - 1);
      TryMove(player, currentNumber, kingX - 1 >= 0, kingX - 1, kingY);
      TryMove(player, currentNumber, kingY + 1 < Height, kingX, kingY + 1);
      TryMove(player, currentNumber, kingX + 1 < Width, kingX + 1, kingY);
      KingSteps(t, kingX, kingY, m, p0);
    }

    /** Runs every player from the current start cell, then from each later
        start cell in turn until the cursor wraps back to key '2'. Each
        counter grows by the walks of its type from those start cells, once
        per player of that type, and each player is left where its walks
        from the last start cell, key '9', leave it. */
    method Play() returns (r: array<int>)
      requires Valid() && phoneNumberLength >= 1
      requires phoneNumberLength > 1 || forall p :: p in players ==> IsPlayerType(p.pieceType)
      modifies this`startX, this`startY, this`phoneNumber, numbers, set p | p in players
      ensures Valid() && r == numbers && Cell(startX, startY) == Starts[0]
      ensures forall u :: 0 <= u < PlayerCount ==>
        numbers[u] == old(numbers[u])
          + SweepDue(players, u, Pos(old(startX), old(startY)) - 1, phoneNumberLength - 1)
      ensures forall p :: p in players ==> Settled(p, 2, 2, phoneNumberLength - 1)
      decreases Width * Height - Pos(startX, startY)
    {
      ghost var k := phoneNumberLength - 1;
      ghost var i := Pos(startX, startY) - 1;
      Advance(startX, startY);
      PlayRound();
      var again := Reset();
      if again {
        r := Play();
      }
      forall u | 0 <= u < PlayerCount
        ensures numbers[u] == old(numbers[u]) + SweepDue(players, u, i, k)
      {
        DueFrom(players, u, i, k);
      }
      r := numbers;
    }

    /** The loop over the players in Play: each is placed on the current
        start cell and walked through PhoneBook with the one-digit number. */
    method PlayRound()
      requires Valid() && phoneNumberLength >= 1
      requires phoneNumberLength > 1 || forall p :: p in players ==> IsPlayerType(p.pieceType)
      modifies numbers, set p | p in players
      ensures forall u :: 0 <= u < PlayerCount ==>
        numbers[u] == old(numbers[u]) + Due(players, u, startX, startY, phoneNumberLength - 1)
      ensures forall p :: p in players ==> Settled(p, startX, startY, phoneNumberLength - 1)
    {
      ghost var k := phoneNumberLength - 1;
      ghost var x0, y0 := startX, startY;
      for i := 0 to |players|
        invariant startX == x0 && startY == y0
        invariant forall u :: 0 <= u < PlayerCount ==>
          numbers[u] == old(numbers[u]) + Due(players[..i], u, x0, y0, k)
        invariant forall j :: 0 <= j < i ==> Settled(players[j], x0, y0, k)
      {
        var p := players[i];
        p.SetPosition(startX, startY);
        PhoneBook(p, phoneNumber);
        forall u | 0 <= u < PlayerCount
          ensures numbers[u] == old(numbers[u]) + Due(players[..i + 1], u, x0, y0, k)
        {
          DueStep(players, i, u, x0, y0, k);
        }
      }
      assert players[..|players|] == players;
    }

    /** Advances the cursor to the next start cell in row-major order,
        wrapping past the bottom row to key '2', and begins the next number
        with its label; reports whether the cursor is not back on the
        first start cell. */
    method Reset() returns (r: bool)
      requires Valid()
      modifies this`startX, this`startY, this`phoneNumber
      ensures Valid()
      ensures Cell(startX, startY) == NextStart(old(startX), old(startY))
      ensures r <==> Cell(startX, startY) != Cell(initialStartX, initialStartY)
    {
      var searching := true;
      while searching
        invariant InBounds(startX, startY)
        invariant searching ==> NextStart(old(startX), old(startY)) == NextStart(startX, startY)
        invariant !searching ==> Cell(startX, startY) == NextStart(old(startX), old(startY))
        decreases if searching then Width * Height - Pos(startX, startY) else 0
      {
        ghost var px, py := startX, startY;
        startX := startX + 1;
        var normalizing := true;
        while normalizing
          invariant normalizing ==> Cell(startX, startY) == Cell(px + 1, py)
          invariant !normalizing ==> Cell(startX, startY) == Succ(px, py)
          decreases normalizing
        {
          if startX >= Width {
            startY := startY + 1;
            startX := 0;
          }
          if startY >= Height {
            startX := startX + 1;
            startY := 0;
          }
          normalizing := startX >= Width || startY >= Height;
        }
        searching := !IsStartCell(startX, startY);
      }
      phoneNumber := [Label(startX, startY)];
      r := !(initialStartX == startX && initialStartY == startY);
    }
  }
}
