# Tic-tac-toe engine, modelled in Dafny

This project models the game engine of a terminal tic-tac-toe program written in Rust. The engine's parts are:

- the two players `X` and `O` and the `opponent` mapping;
- how a cell is shown (`show_cell`);
- the `TicTacToe` game, which owns a 3x3 board of optional players and the player to move;
- the two board queries `has_won` and `is_full`;
- `make_move`, the only operation that changes a game.

The model has three modules:

- `Players` (players.dfy): `Player`, `Opponent`, `ToChar` and `ShowCell`.
- `Grid` (grid.dfy): the board as a value (`Board`, three rows of three `Option<Player>` cells). It has:
  - the table of the eight winning lines (three rows, three columns, two diagonals);
  - `Wins` (a player holds some line) and `IsFull` (all nine cells taken);
  - `Occupied`, the count of taken cells;
  - `Place`, which writes one cell.

  It also holds the lemmas about these, including the boards of the source's unit tests.
- `Game` (game.dfy): the outcome and error types and the value-level specification `Move` of a move attempt, with lemmas about it. It also holds the class `TicTacToe`, whose board is a 3x3 `array2` updated in place. In that class:
  - `HasWon` walks rows, then columns, then the two diagonals with early returns, as the source does;
  - `IsFull` is an expression over all cells;
  - `MakeMove` checks the bounds, then the cell, writes the cell, then classifies the result and passes the turn.

  `MakeMove` is proved to change the board and turn exactly as `Move` says. The lemmas about `Move` state what the source promises. A refused move changes nothing. A legal move changes exactly one cell. The outcome is fixed by `Wins` and `IsFull` of the new board. Only an `Ongoing` outcome passes the turn.

Moves are accepted after a game has ended, as in the source. The engine has no such guard; the caller stops.

## Model

| member | source | states |
|---|---|---|
| Players.Player.Opponent | src/main.rs:10-15 | the opponent is never the player itself |
| Players.OpponentInvolution | src/main.rs:10-15 | taking the opponent twice gives back the player, and the opponent differs from the player |
| Players.Player.ToChar | src/main.rs:16-21 | a player's marker is `X` or `O`, never the blank used for empty cells |
| Players.ToCharInjective | src/main.rs:16-21 | the two players have different markers |
| Players.ShowCell | src/main.rs:24-29 | a cell shows a blank exactly when it is empty, otherwise its owner's marker |
| Players.ShowCellInjective | src/main.rs:24-29 | empty, `X` and `O` cells are all shown differently |
| Grid.Place | src/main.rs:97 | the written cell holds the player afterwards and every other cell is unchanged |
| Grid.Occupied | src/main.rs:84-86 | at most nine cells are taken |
| Grid.WinsIffOneOfEight | src/main.rs:65-82 | a player has won exactly when it holds one of the eight lines of the table |
| Grid.WinsIffLine | src/main.rs:65-82 | a player has won exactly when it holds a whole row, a whole column, the main diagonal (0,0)-(1,1)-(2,2) or the anti-diagonal (0,2)-(1,1)-(2,0), on any board |
| Grid.IsFullIffNineOccupied | src/main.rs:84-86 | a board is full (all nine cells taken, by either player) exactly when nine cells are counted as taken |
| Grid.PlaceEmptyCell | src/main.rs:93-97 | taking an empty cell raises the count of taken cells by exactly one |
| Grid.EmptyBoard | src/main.rs:43-48 | on the new board nobody has won, it is not full and no cell is taken |
| Grid.ScatteredMarksNoWinner | src/main.rs:174-183 | on the unit test's board with scattered marks neither player has won |
| Grid.TopRowWins | src/main.rs:185-194 | with the top row all `X`, `X` has won and `O` has not |
| Grid.LeftColumnWins | src/main.rs:195-204 | with the left column all `X`, `X` has won and `O` has not |
| Grid.DiagonalWins | src/main.rs:205-222 | with the main diagonal all `X`, `X` has won, `O` has not, and the board is not full |
| Grid.AllXIsFull | src/main.rs:223-227 | a board taken entirely by `X` is full |
| Grid.AntiDiagonalWins | src/main.rs:81 | marks on (0,2), (1,1), (2,0) win for their owner and not for the opponent |
| Grid.DrawnBoard | src/main.rs:65-86 | the position X O X / X O O / O X X is full and nobody has won |
| Game.Move | src/main.rs:88-108 | a move attempt succeeds exactly when both coordinates are at most 2 and the cell is empty; a refused attempt leaves board and turn unchanged |
| Game.MoveRejects | src/main.rs:90-95 | out of bounds is reported exactly when a coordinate exceeds 2, so it comes before the taken-cell check; tile taken is reported exactly for an in-bounds taken cell |
| Game.MoveTakesOneCell | src/main.rs:96-97 | a successful move sets the target cell to the mover, leaves every other cell unchanged, and raises the taken count by one |
| Game.MoveOutcome | src/main.rs:98-107 | after a successful move: `Won(mover)` iff the mover holds a line; else `Full` iff the board is full; else `Ongoing`; the turn passes to the opponent exactly on `Ongoing` |
| Game.OngoingLeavesAMove | src/main.rs:102-107 | after an `Ongoing` outcome the next player has a legal move |
| Game.LastCellEndsGame | src/main.rs:97-104 | taking the last free cell never yields `Ongoing`, so at most nine moves succeed in a game |
| Game.OutOfBoundsOnNewGame | src/main.rs:90-92 | a move at (3,0) on a new game is out of bounds and changes nothing |
| Game.TileTakenScenario | src/main.rs:93-95 | after `X` takes (0,0), `O` is refused the same cell, which still holds `X` |
| Game.TopRowOpening | src/main.rs:97-107 | `X` at (0,0) then `O` at (1,0) both leave the game going, passing the turn each time |
| Game.TopRowMiddleGame | src/main.rs:97-107 | `X` at (0,1) then `O` at (1,1) both leave the game going |
| Game.TopRowScenario | src/main.rs:88-108 | with `O` answering in the middle row, `X`'s third move on the top row wins and keeps the turn |
| Game.TicTacToe.Cells | src/main.rs:31-34 | the value view of the board agrees with the in-place array cell by cell |
| Game.TicTacToe.constructor | src/main.rs:43-48 | a new game has an empty board and `X` to move |
| Game.TicTacToe.HasWon | src/main.rs:65-82 | the row, column and diagonal scans with early returns answer exactly `Wins` of the current board |
| Game.TicTacToe.IsFull | src/main.rs:84-86 | the game's board is full exactly when nine cells are taken |
| Game.TicTacToe.MakeMove | src/main.rs:88-108 | the new board, the new turn and the result are those of `Move` on the old board and turn; a refused move changes nothing |
| Game.TileTakenSession | src/main.rs:130-143 | a caller driving a new game sees `Ongoing` for `X` at (0,0) and then the taken-tile error for the same cell |

## Left out

- `play` (src/main.rs:110-147) is not modelled. It reads a line from standard input, clears the terminal with an ANSI escape and prints. It parses characters 1 and 3 of the line as digits without checking them. That is all I/O and input parsing around the engine.
- `to_string` and the `Display` implementation (src/main.rs:50-63, 150-156) are not modelled. They draw the box-drawing picture of the board, which is only displayed. `ShowCell`, the character drawn in each cell, is modelled.
- `main` (src/main.rs:158-161) only creates a game and calls `play`.
- The two errors of `make_move` are string messages in the source. The model has the two variants `OutOfBounds` and `TileTaken` and not their text.
- Coordinates are `usize` in the source and `nat` here. They are only compared with 2 and used as indices, so the width plays no part.
