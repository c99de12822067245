/**
 * The game engine: a game owns a 3x3 board and the player whose turn it is,
 * and changes only through `MakeMove`. The value-level function `Move` is its
 * specification; the lemmas after it state what a move does.
 */
module Game {
  import opened Players
  import opened Grid

  /** How a successful move leaves the game. */
  datatype GameState = Won(winner: Player) | Full | Ongoing

  /** Why a move was refused. */
  datatype MoveError = OutOfBounds | TileTaken

  datatype Result<T, E> = Ok(value: T) | Err(error: E)

  /** The board and turn after a move attempt, with the attempt's result. */
  datatype Step = Step(board: Board, turn: Player, result: Result<GameState, MoveError>)

  /**
   * `turn` attempts to take (row, col). The bounds are checked before the
   * cell; a legal move takes the cell, then a win by the mover is reported
   * before a full board, and only a move that leaves the game going passes
   * the turn. Nothing stops moves after the game has ended.
   */
  function Move(b: Board, turn: Player, row: nat, col: nat): (s: Step)
    ensures s.result.Ok? <==> row <= 2 && col <= 2 && b[row][col].None?
    ensures s.result.Err? ==> s.board == b && s.turn == turn
  {
    if row > 2 || col > 2 then Step(b, turn, Err(OutOfBounds))
    else if b[row][col].Some? then Step(b, turn, Err(TileTaken))
    else
      var b' := Place(b, Pos(row, col), turn);
      if Wins(b', turn) then Step(b', turn, Ok(Won(turn)))
      else if IsFull(b') then Step(b', turn, Ok(Full))
      else Step(b', turn.Opponent(), Ok(Ongoing))
  }

  /** Out-of-bounds is reported whenever a coordinate exceeds 2, even if the other names a taken cell. */
  lemma MoveRejects(b: Board, turn: Player, row: nat, col: nat)
    ensures Move(b, turn, row, col).result == Err(OutOfBounds) <==> row > 2 || col > 2
    ensures Move(b, turn, row, col).result == Err(TileTaken) <==> row <= 2 && col <= 2 && b[row][col].Some?
  {
  }

  /**
   * A successful move changes exactly one cell, the target, to the mover, so
   * one more cell is taken than before.
   */
  lemma MoveTakesOneCell(b: Board, turn: Player, row: nat, col: nat)
    requires Move(b, turn, row, col).result.Ok?
    ensures row <= 2 && col <= 2
    ensures var s := Move(b, turn, row, col);
      && At(s.board, Pos(row, col)) == Some(turn)
      && (forall q: Pos :: q != Pos(row, col) ==> At(s.board, q) == At(b, q))
      && Occupied(s.board) == Occupied(b) + 1
  {
    PlaceEmptyCell(b, Pos(row, col), turn);
  }

  /**
   * The outcome of a successful move is decided by the board after it: a win
   * for the mover first, then a full board, else the game goes on; the turn
   * passes to the opponent exactly when the game goes on.
   */
  lemma MoveOutcome(b: Board, turn: Player, row: nat, col: nat)
    requires Move(b, turn, row, col).result.Ok?
    ensures var s := Move(b, turn, row, col);
      && (s.result == Ok(Won(turn)) <==> Wins(s.board, turn))
      && (s.result == Ok(Full) <==> !Wins(s.board, turn) && IsFull(s.board))
      && (s.result == Ok(Ongoing) <==> !Wins(s.board, turn) && !IsFull(s.board))
      && (s.result.value.Won? ==> s.result.value.winner == turn)
      && (s.turn == if s.result == Ok(Ongoing) then turn.Opponent() else turn)
  {
  }

  /** Whenever the game goes on, the next player has a legal move. */
  lemma OngoingLeavesAMove(b: Board, turn: Player, row: nat, col: nat)
    requires Move(b, turn, row, col).result == Ok(Ongoing)
    ensures var s := Move(b, turn, row, col);
      exists r: Coord, c: Coord :: Move(s.board, s.turn, r, c).result.Ok?
  {
    var s := Move(b, turn, row, col);
    assert !IsFull(s.board);
    var r: Coord, c: Coord :| s.board[r][c].None?;
    assert Move(s.board, s.turn, r, c).result.Ok?;
  }

  /** Taking the last free cell always ends the game: a game lasts at most nine successful moves. */
  lemma LastCellEndsGame(b: Board, turn: Player, row: nat, col: nat)
    requires Occupied(b) == 8
    requires Move(b, turn, row, col).result.Ok?
    ensures Move(b, turn, row, col).result != Ok(Ongoing)
  {
    var s := Move(b, turn, row, col);
    MoveTakesOneCell(b, turn, row, col);
    IsFullIffNineOccupied(s.board);
  }

  /** A move at (3,0) on a new game is out of bounds and changes nothing. */
  lemma OutOfBoundsOnNewGame()
    ensures Move(Empty, X, 3, 0) == Step(Empty, X, Err(OutOfBounds))
  {
  }

  /** After `X` takes (0,0), `O` cannot take it too, and (0,0) still shows `X`. */
  lemma TileTakenScenario()
    ensures var s1 := Move(Empty, X, 0, 0);
      var s2 := Move(s1.board, s1.turn, 0, 0);
      && s1.result == Ok(Ongoing) && s1.turn == O
      && s2.result == Err(TileTaken) && s2.turn == O && s2.board[0][0] == Some(X)
  {
    var s1 := Move(Empty, X, 0, 0);
    SameBoard(s1.board, [[Some(X), None, None], [None, None, None], [None, None, None]]);
    assert !Wins(s1.board, X) by { WinsIffLine(s1.board, X); }
    assert s1.board[0][1].None?;
  }

  /** The first two moves of the top-row game: `X` takes (0,0), `O` answers at (1,0). */
  lemma TopRowOpening()
    ensures Move(Empty, X, 0, 0)
      == Step([[Some(X), None, None], [None, None, None], [None, None, None]], O, Ok(Ongoing))
    ensures Move([[Some(X), None, None], [None, None, None], [None, None, None]], O, 1, 0)
      == Step([[Some(X), None, None], [Some(O), None, None], [None, None, None]], X, Ok(Ongoing))
  {
    var b1: Board := [[Some(X), None, None], [None, None, None], [None, None, None]];
    var b2: Board := [[Some(X), None, None], [Some(O), None, None], [None, None, None]];
    assert Move(Empty, X, 0, 0) == Step(b1, O, Ok(Ongoing)) by {
      SameBoard(Place(Empty, Pos(0, 0), X), b1);
      WinsIffOneOfEight(b1, X);
      assert b1[0][1].None?;
    }
    assert Move(b1, O, 1, 0) == Step(b2, X, Ok(Ongoing)) by {
      SameBoard(Place(b1, Pos(1, 0), O), b2);
      WinsIffOneOfEight(b2, O);
      assert b2[0][1].None?;
    }
  }

  /** The next two moves of the top-row game: `X` takes (0,1), `O` answers at (1,1). */
  lemma TopRowMiddleGame()
    ensures Move([[Some(X), None, None], [Some(O), None, None], [None, None, None]], X, 0, 1)
      == Step([[Some(X), Some(X), None], [Some(O), None, None], [None, None, None]], O, Ok(Ongoing))
    ensures Move([[Some(X), Some(X), None], [Some(O), None, None], [None, None, None]], O, 1, 1)
      == Step([[Some(X), Some(X), None], [Some(O), Some(O), None], [None, None, None]], X, Ok(Ongoing))
  {
    var b2: Board := [[Some(X), None, None], [Some(O), None, None], [None, None, None]];
    var b3: Board := [[Some(X), Some(X), None], [Some(O), None, None], [None, None, None]];
    var b4: Board := [[Some(X), Some(X), None], [Some(O), Some(O), None], [None, None, None]];
    assert Move(b2, X, 0, 1) == Step(b3, O, Ok(Ongoing)) by {
      SameBoard(Place(b2, Pos(0, 1), X), b3);
      WinsIffOneOfEight(b3, X);
      assert b3[0][2].None?;
    }
    assert Move(b3, O, 1, 1) == Step(b4, X, Ok(Ongoing)) by {
      SameBoard(Place(b3, Pos(1, 1), O), b4);
      WinsIffOneOfEight(b4, O);
      assert b4[0][2].None?;
    }
  }

  /**
   * `X` takes the top row while `O` answers in the middle row without
   * completing it: the third `X` move wins, and the turn stays with `X`.
   */
  lemma TopRowScenario()
    ensures var s1 := Move(Empty, X, 0, 0);
      var s2 := Move(s1.board, s1.turn, 1, 0);
      var s3 := Move(s2.board, s2.turn, 0, 1);
      var s4 := Move(s3.board, s3.turn, 1, 1);
      var s5 := Move(s4.board, s4.turn, 0, 2);
      && s1.result == s2.result == s3.result == s4.result == Ok(Ongoing)
      && s5.result == Ok(Won(X)) && s5.turn == X
  {
    TopRowOpening();
    TopRowMiddleGame();
    var b4: Board := [[Some(X), Some(X), None], [Some(O), Some(O), None], [None, None, None]];
    var b5: Board := [[Some(X), Some(X), Some(X)], [Some(O), Some(O), None], [None, None, None]];
    SameBoard(Place(b4, Pos(0, 2), X), b5);
    assert Owns(b5, X, Lines[0]);
  }

  /** A game in progress: the board as an in-place 3x3 array and the player to move. */
  class TicTacToe {
    var board: array2<Cell>
    var turn: Player

    ghost predicate Valid()
      reads this`board
    {
      board.Length0 == 3 && board.Length1 == 3
    }

    /** The board's contents as a value, row by row. */
    ghost function Cells(): (cells: Board)
      reads this`board, board
      requires Valid()
      ensures forall r: Coord, c: Coord :: cells[r][c] == board[r, c]
    {
      var a := board;
      seq(3, r requires 0 <= r < 3 reads a => seq(3, c requires 0 <= c < 3 reads a => a[r, c]))
    }

    /** A new game: an empty board, and `X` to move. */
    constructor ()
      ensures Valid() && fresh(board)
      ensures Cells() == Empty && turn == X
    {
      board := new Cell[3, 3]((r, c) => None);
      turn := X;
      new;
      SameBoard(Cells(), Empty);
    }

    /**
     * Whether `player` holds a whole row, a whole column or either diagonal,
     * checked rows first, then columns, then the two diagonals.
     */
    method HasWon(player: Player) returns (won: bool)
      requires Valid()
      ensures won == Wins(Cells(), player)
    {
      WinsIffLine(Cells(), player);
      for row := 0 to 3
        invariant forall r: Coord :: r < row ==> !Owns(Cells(), player, RowLine(r))
      {
        if board[row, 0] == Some(player) && board[row, 1] == Some(player) && board[row, 2] == Some(player) {
          assert Owns(Cells(), player, RowLine(row));
          return true;
        }
      }
      for col := 0 to 3
        invariant forall c: Coord :: c < col ==> !Owns(Cells(), player, ColumnLine(c))
      {
        if board[0, col] == Some(player) && board[1, col] == Some(player) && board[2, col] == Some(player) {
          assert Owns(Cells(), player, ColumnLine(col));
          return true;
        }
      }
      if board[0, 0] == Some(player) && board[1, 1] == Some(player) && board[2, 2] == Some(player) {
        return true;
      }
      return board[0, 2] == Some(player) && board[1, 1] == Some(player) && board[2, 0] == Some(player);
    }

    /** Whether every cell is taken, by either player. */
    function IsFull(): (full: bool)
      reads this`board, board
      requires Valid()
      ensures full <==> Occupied(Cells()) == 9
    {
      IsFullIffNineOccupied(Cells());
      forall r, c | 0 <= r < 3 && 0 <= c < 3 :: board[r, c].Some?
    }

    /**
     * The current player attempts to take (row, col). A refused move changes
     * nothing; otherwise the game moves exactly as `Move` says.
     */
    method MakeMove(row: nat, col: nat) returns (r: Result<GameState, MoveError>)
      requires Valid()
      modifies this`turn, board
      ensures Valid()
      ensures Step(Cells(), turn, r) == Move(old(Cells()), old(turn), row, col)
      ensures r.Err? ==> Cells() == old(Cells()) && turn == old(turn)
    {
      if row > 2 || col > 2 {
        return Err(OutOfBounds);
      }
      if board[row, col].Some? {
        return Err(TileTaken);
      }
      board[row, col] := Some(turn);
      forall r: Coord, c: Coord ensures Cells()[r][c] == Place(old(Cells()), Pos(row, col), turn)[r][c] {
        assert At(Place(old(Cells()), Pos(row, col), turn), Pos(r, c)) == Place(old(Cells()), Pos(row, col), turn)[r][c];
      }
      SameBoard(Cells(), Place(old(Cells()), Pos(row, col), turn));
      var won := HasWon(turn);
      if won {
        return Ok(Won(turn));
      }
      if IsFull() {
        IsFullIffNineOccupied(Cells());
        return Ok(Full);
      }
      IsFullIffNineOccupied(Cells());
      turn := turn.Opponent();
      r := Ok(Ongoing);
    }
  }

  /**
   * Driving the engine the way the session loop does: on a new game `X`
   * takes (0,0), then `O` tries the same cell and is refused.
   */
  method TileTakenSession() returns (first: Result<GameState, MoveError>, second: Result<GameState, MoveError>)
    ensures first == Ok(Ongoing)
    ensures second == Err(TileTaken)
  {
    var game := new TicTacToe();
    TileTakenScenario();
    first := game.MakeMove(0, 0);
    second := game.MakeMove(0, 0);
  }
}
