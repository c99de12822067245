/**
 * The 3x3 board as a value, and the two queries on it: whether a player has
 * completed one of the eight winning lines, and whether every cell is taken.
 * These are the specification the in-place engine in module Game is proved against.
 */
module Grid {
  import opened Players

  /** A cell is empty (`None`) or holds the player who took it. */
  type Cell = Option<Player>

  /** A row or column index. */
  type Coord = i: nat | i < 3

  /** Three rows of three cells each, row-major, as `board[row][col]`. */
  type Board = b: seq<seq<Cell>> | |b| == 3 && forall r :: 0 <= r < |b| ==> |b[r]| == 3
    witness [[None, None, None], [None, None, None], [None, None, None]]

  /** A position on the board. */
  datatype Pos = Pos(row: Coord, col: Coord)

  /** Three positions that win when one player holds all of them. */
  type Line = (Pos, Pos, Pos)

  /** The board a new game starts from: nine empty cells. */
  const Empty: Board := [[None, None, None], [None, None, None], [None, None, None]]

  function At(b: Board, pos: Pos): Cell
  {
    b[pos.row][pos.col]
  }

  function RowLine(r: Coord): Line
  {
    (Pos(r, 0), Pos(r, 1), Pos(r, 2))
  }

  function ColumnLine(c: Coord): Line
  {
    (Pos(0, c), Pos(1, c), Pos(2, c))
  }

  /** The main diagonal (0,0)-(1,1)-(2,2). */
  const Diagonal: Line := (Pos(0, 0), Pos(1, 1), Pos(2, 2))

  /** The anti-diagonal (0,2)-(1,1)-(2,0). */
  const AntiDiagonal: Line := (Pos(0, 2), Pos(1, 1), Pos(2, 0))

  /** The eight winning lines: three rows, three columns, two diagonals. */
  const Lines: seq<Line> := [
    RowLine(0), RowLine(1), RowLine(2),
    ColumnLine(0), ColumnLine(1), ColumnLine(2),
    Diagonal, AntiDiagonal
  ]

  /** Player `p` holds all three cells of `line`. */
  predicate Owns(b: Board, p: Player, line: Line)
  {
    At(b, line.0) == Some(p) && At(b, line.1) == Some(p) && At(b, line.2) == Some(p)
  }

  /** Player `p` has won: it holds some winning line. Any board, whose turn it is plays no part. */
  predicate Wins(b: Board, p: Player)
  {
    exists i :: 0 <= i < |Lines| && Owns(b, p, Lines[i])
  }

  /** Every one of the nine cells is taken, by either player. */
  predicate IsFull(b: Board)
  {
    forall r: Coord, c: Coord :: b[r][c].Some?
  }

  /** The number of taken cells in one row. */
  function CountTaken(cells: seq<Cell>): (n: nat)
    ensures n <= |cells|
    ensures n == |cells| <==> forall i :: 0 <= i < |cells| ==> cells[i].Some?
  {
    if cells == [] then 0
    else (if cells[0].Some? then 1 else 0) + CountTaken(cells[1..])
  }

  /** The number of taken cells on the board. */
  function Occupied(b: Board): (n: nat)
    ensures n <= 9
  {
    CountTaken(b[0]) + CountTaken(b[1]) + CountTaken(b[2])
  }

  /** The board after `p` takes `pos`; the cell is overwritten whatever it held. */
  function Place(b: Board, pos: Pos, p: Player): (b': Board)
    ensures At(b', pos) == Some(p)
    ensures forall q: Pos :: q != pos ==> At(b', q) == At(b, q)
  {
    b[pos.row := b[pos.row][pos.col := Some(p)]]
  }

  /** Two boards with the same nine cells are the same board. */
  lemma SameBoard(a: Board, b: Board)
    requires forall r: Coord, c: Coord :: a[r][c] == b[r][c]
    ensures a == b
  {
    forall r: Coord ensures a[r] == b[r] {
      assert forall c: Coord :: a[r][c] == b[r][c];
    }
  }

  /** Whether a player has won is decided by checking the eight lines one by one. */
  lemma WinsIffOneOfEight(b: Board, p: Player)
    ensures Wins(b, p) <==>
      || Owns(b, p, Lines[0]) || Owns(b, p, Lines[1]) || Owns(b, p, Lines[2]) || Owns(b, p, Lines[3])
      || Owns(b, p, Lines[4]) || Owns(b, p, Lines[5]) || Owns(b, p, Lines[6]) || Owns(b, p, Lines[7])
  {
  }

  /**
   * The line table says what the engine's checks say: a player has won
   * exactly when it holds a whole row, a whole column, the main diagonal or
   * the anti-diagonal.
   */
  lemma WinsIffLine(b: Board, p: Player)
    ensures Wins(b, p) <==>
      || (exists r: Coord :: Owns(b, p, RowLine(r)))
      || (exists c: Coord :: Owns(b, p, ColumnLine(c)))
      || Owns(b, p, Diagonal)
      || Owns(b, p, AntiDiagonal)
  {
    if Wins(b, p) {
      var i :| 0 <= i < |Lines| && Owns(b, p, Lines[i]);
      if i < 3 {
        assert Lines[i] == RowLine(i);
      } else if i < 6 {
        assert Lines[i] == ColumnLine(i - 3);
      }
    }
    if exists r: Coord :: Owns(b, p, RowLine(r)) {
      var r: Coord :| Owns(b, p, RowLine(r));
      assert Lines[r] == RowLine(r);
    }
    if exists c: Coord :: Owns(b, p, ColumnLine(c)) {
      var c: Coord :| Owns(b, p, ColumnLine(c));
      assert Lines[3 + c] == ColumnLine(c);
    }
    if Owns(b, p, Diagonal) {
      assert Lines[6] == Diagonal;
    }
    if Owns(b, p, AntiDiagonal) {
      assert Lines[7] == AntiDiagonal;
    }
  }

  /** A board is full exactly when all nine cells are counted as taken. */
  lemma IsFullIffNineOccupied(b: Board)
    ensures IsFull(b) <==> Occupied(b) == 9
  {
  }

  /** Filling one empty cell of a row adds exactly one to its count. */
  lemma {:induction false} CountTakenFill(cells: seq<Cell>, i: nat, p: Player)
    requires i < |cells| && cells[i].None?
    ensures CountTaken(cells[i := Some(p)]) == CountTaken(cells) + 1
  {
    var filled := cells[i := Some(p)];
    if i > 0 {
      assert filled[1..] == cells[1..][i - 1 := Some(p)];
      CountTakenFill(cells[1..], i - 1, p);
    } else {
      assert filled[1..] == cells[1..];
    }
  }

  /** Taking an empty cell raises the number of taken cells by exactly one. */
  lemma PlaceEmptyCell(b: Board, pos: Pos, p: Player)
    requires At(b, pos).None?
    ensures Occupied(Place(b, pos, p)) == Occupied(b) + 1
  {
    var b' := Place(b, pos, p);
    CountTakenFill(b[pos.row], pos.col, p);
    forall r: Coord | r != pos.row ensures b'[r] == b[r] { }
  }

  /** A new game's board: nobody has won, it is not full and no cell is taken. */
  lemma EmptyBoard()
    ensures !Wins(Empty, X) && !Wins(Empty, O)
    ensures !IsFull(Empty)
    ensures Occupied(Empty) == 0
  {
    assert Empty[0][0].None?;
  }

  /** The unit-test board with a few scattered marks: nobody has won. */
  lemma ScatteredMarksNoWinner()
    ensures var b: Board := [[None, Some(X), None], [None, None, Some(O)], [Some(O), None, None]];
      !Wins(b, O) && !Wins(b, X)
  {
  }

  /** The unit-test board with the top row all `X`: `X` has won and `O` has not. */
  lemma TopRowWins()
    ensures var b: Board := [[Some(X), Some(X), Some(X)], [None, None, None], [None, None, None]];
      Wins(b, X) && !Wins(b, O)
  {
    var b: Board := [[Some(X), Some(X), Some(X)], [None, None, None], [None, None, None]];
    WinsIffLine(b, X);
    WinsIffLine(b, O);
    assert Owns(b, X, RowLine(0));
  }

  /** The unit-test board with the left column all `X`: `X` has won and `O` has not. */
  lemma LeftColumnWins()
    ensures var b: Board := [[Some(X), None, None], [Some(X), None, None], [Some(X), None, None]];
      Wins(b, X) && !Wins(b, O)
  {
    var b: Board := [[Some(X), None, None], [Some(X), None, None], [Some(X), None, None]];
    WinsIffLine(b, X);
    WinsIffLine(b, O);
    assert Owns(b, X, ColumnLine(0));
  }

  /**
   * The unit-test board with the main diagonal all `X`: `X` has won, `O` has
   * not, and the board is not full.
   */
  lemma DiagonalWins()
    ensures var b: Board := [[Some(X), None, None], [None, Some(X), None], [None, None, Some(X)]];
      Wins(b, X) && !Wins(b, O) && !IsFull(b)
  {
    var b: Board := [[Some(X), None, None], [None, Some(X), None], [None, None, Some(X)]];
    WinsIffLine(b, X);
    WinsIffLine(b, O);
    assert Owns(b, X, Diagonal);
    assert b[0][1].None?;
  }

  /** A board taken entirely by one player is full. */
  lemma AllXIsFull()
    ensures IsFull([[Some(X), Some(X), Some(X)], [Some(X), Some(X), Some(X)], [Some(X), Some(X), Some(X)]])
  {
  }

  /** The anti-diagonal counts: marks at (0,2), (1,1), (2,0) win for their owner only. */
  lemma AntiDiagonalWins(p: Player)
    ensures var b: Board := [[None, None, Some(p)], [None, Some(p), None], [Some(p), None, None]];
      Wins(b, p) && !Wins(b, p.Opponent())
  {
    var b: Board := [[None, None, Some(p)], [None, Some(p), None], [Some(p), None, None]];
    WinsIffLine(b, p);
    WinsIffLine(b, p.Opponent());
    assert Owns(b, p, AntiDiagonal);
  }

  /** The classic drawn position X O X / X O O / O X X: full, and nobody has won. */
  lemma DrawnBoard()
    ensures var b: Board := [[Some(X), Some(O), Some(X)], [Some(X), Some(O), Some(O)], [Some(O), Some(X), Some(X)]];
      IsFull(b) && !Wins(b, X) && !Wins(b, O)
  {
  }
}
