# Tic-tac-toe rule engine in Dafny

This project models the rule engine of a two-player tic-tac-toe desktop
game: the class `gameCore` in `src/Main/gameCore.java`. The engine holds a
3×3 board of pieces (the enum `piece` of `src/Main/gameCore.java:39-42`,
modelled as the datatype `Rules.Piece` with constructors `Player1`,
`Player2`, `Empty` for `PLAYER1`, `PLAYER2`, `EMPTY`), the integer code of the
player to move (1 or 2) and the integer game-state code (1 Player1 win,
2 Player2 win, -1 tie game, 0 no win). A new game empties the board, gives
the turn to player 1 and sets the state to 0. A move writes the mover's
piece, passes the turn and reclassifies the board: first a Player1 line,
then a Player2 line, then a full board.

Files:

- `rules.dfy` (module `Rules`): the pieces, a board value `Grid` (three
  `Row`s of three cells, addressed `At(g, x, y)` like `gameBoard[x][y]`),
  the line tests `Vertical`, `Horizontal`, `MainDiagonal`, `AntiDiagonal`
  and `HasLine` (the engine's four checks), `Wins`, `IsFull`, the
  classification `Classify`, the whole-engine value `Game` and the effect of
  one move (`Move`) or of a list of moves (`Play`), with the lemmas about
  them. Two independent references sit beside the engine's definitions: the
  table `Lines` of the eight lines of a 3×3 board, and `EmptyCount`, the
  number of Empty cells.
  The names `Row`, `Horizontal` and `Vertical` follow the engine's comments
  (`src/Main/gameCore.java:228-245`), which call the triple `[i][0..2]`
  horizontal; the window places `gameBoard[x][y]` in column x
  (`src/Main/UI.java:170`), so on screen such a triple is a column.
- `engine.dfy` (module `Engine`): class `GameCore` with the board as an
  `array2<Piece>` written in place and the two integer fields. The methods
  that change the whole engine (constructor, `NewGame`, `MakeMove`) are
  proved against `Rules` through `Snapshot()`, the three fields as a `Game`
  value; `ClearBoard`, which changes only the board, and the board scans
  (`CheckWin`, `CheckFullBoard`, `UpdateGameState`) through `Cells()`, the
  board as a `Grid`; the getters state the field they return.
  `PlayOnEngine` makes a list of moves one `MakeMove` at a time and ties the
  engine to `Play`, so the properties proved about `Play` hold of the engine.
  `Valid()` is the object invariant: the player code is 1 or 2 and the
  stored state is the classification of the board.
- `scenarios.dfy` (module `Scenarios`): concrete games played on a fresh
  engine through `MakeMove`, with the codes the engine then reports. Most
  are click sequences the window can send; `OccupiedCellOverwritten`,
  `MoveAfterWinUndoesIt` and `BothLinesReportPlayer1` make calls that the
  window's guards would filter out, and show what the engine does with them.

The player and state codes stay integers, as in the source; the invariant
`Valid()` confines them to the codes the source uses. `makeMove` checks
neither the coordinates nor the cell: the model requires in-range
coordinates, because Java would throw on any other index, and it lets a
move overwrite an occupied cell and be made after a win or a tie, as the
source does.

## Model

| member | source | states |
|---|---|---|
| `Engine.GameCore.constructor` | src/Main/gameCore.java:113-116 | a new engine satisfies the invariant, every cell is Empty, the player is 1 and the state is 0 |
| `Engine.GameCore.GetCurrentPlayer` | src/Main/gameCore.java:94-97 | returns the player field without changing anything; on a valid engine it is 1 or 2 |
| `Engine.GameCore.GetGameState` | src/Main/gameCore.java:99-102 | returns the state field without changing anything; on a valid engine it is the classification of the board and one of 1, 2, -1, 0 |
| `Engine.GameCore.ClearBoard` | src/Main/gameCore.java:122-131 | after the nested loops every cell of the board is Empty |
| `Engine.GameCore.NewGame` | src/Main/gameCore.java:138-144 | from any state: every cell Empty, player 1, state 0, invariant restored |
| `Engine.NewGameIdempotent` | src/Main/gameCore.java:138-144 | two new games in a row leave a valid engine in the initial state, the same state a single new game gives |
| `Engine.GameCore.MakeMove` | src/Main/gameCore.java:154-168 | cell (x, y) gets PLAYER1 if the player was 1 and PLAYER2 otherwise, every other cell is unchanged, the player flips 1↔2, the state is the classification of the new board, and the invariant holds afterwards whatever the state before |
| `Engine.GameCore.UpdateGameState` | src/Main/gameCore.java:177-193 | returns 1 exactly when Player1 has a line, 2 exactly when Player2 has one and Player1 not, -1 exactly when the board is full and neither has one, 0 otherwise |
| `Engine.GameCore.CheckFullBoard` | src/Main/gameCore.java:198-213 | the early-return scan returns true exactly when no cell is Empty |
| `Engine.GameCore.CheckWin` | src/Main/gameCore.java:218-260 | false for EMPTY; for a player's piece, true exactly when some triple [0][i],[1][i],[2][i], some triple [i][0],[i][1],[i][2], the main diagonal or [2][0],[1][1],[0][2] is entirely that piece |
| `Rules.Classify` | src/Main/gameCore.java:177-193 | the board's state code is always one of 1, 2, -1, 0, and it is a win code (1 or 2) exactly when some player has a line |
| `Rules.ClassifyOrdered` | src/Main/gameCore.java:177-193 | every board gets exactly one of the four codes, and each code under exactly the condition the evaluation order gives it |
| `Rules.LinesCovered` | src/Main/gameCore.java:218-258 | the engine's vertical, horizontal and two diagonal checks together hold exactly when p fills one of the eight lines of the board; a piece wins exactly when it is PLAYER1 or PLAYER2 and fills one of them |
| `Rules.FullIffNoEmptyCell` | src/Main/gameCore.java:198-213 | the full-board test holds exactly when the board has no Empty cell left to count |
| `Rules.EmptyGridIsNoWin` | src/Main/gameCore.java:138-144 | the cleared board is classified 0, so a reset state is consistent |
| `Rules.InitialIsValid` | src/Main/gameCore.java:138-144 | the reset state satisfies the engine invariant and has every cell Empty |
| `Rules.Place` | src/Main/gameCore.java:158-163 | writing a piece changes exactly the addressed cell |
| `Rules.Move` | src/Main/gameCore.java:154-168 | a move always leaves a consistent game (player 1 or 2, state the classification of the new board), whatever codes the game held before, and the cell it names is occupied afterwards |
| `Rules.MoveEffect` | src/Main/gameCore.java:154-168 | a move writes the mover's piece at (x, y), leaves every other cell, alternates the player and yields a valid game, from any prior player and state codes |
| `Rules.Play` | src/Main/gameCore.java:154-168 | a sequence of moves keeps a consistent game consistent, and after at least one move the game is consistent whatever it held before |
| `Rules.MoveUsesOneEmptyCell` | src/Main/gameCore.java:156-165 | a move onto an Empty cell reduces the number of Empty cells by exactly one |
| `Rules.PlayUsesEmptyCells` | src/Main/gameCore.java:154-168 | a sequence of moves onto Empty cells uses up one Empty cell per move, so it has no more moves than the board has Empty cells |
| `Rules.NineMovesDecide` | src/Main/gameCore.java:187-190 | from a new game, moves onto Empty cells number at most nine, and after the ninth the board is full and the state is a win or a tie, never 0 |
| `Rules.PlayOneMore` | src/Main/gameCore.java:154-168 | one more move after a list of moves gives the game of the longer list |
| `Engine.PlayOnEngine` | src/Main/gameCore.java:138-168 | moves made one MakeMove at a time on a new engine leave player 1 to move after an even number and player 2 after an odd number, and the stored state is the one the list of moves gives, one of the four codes |
| `Rules.PlayAlternates` | src/Main/gameCore.java:156-165 | after an even number of moves the starting player is to move again, after an odd number the other one |
| `Rules.TurnAlternation` | src/Main/gameCore.java:138-165 | from a new game, player 1 is to move after an even number of moves and player 2 after an odd number |
| `Scenarios.HorizontalLineWin` | src/Main/gameCore.java:239-245 | Player1 filling the engine's horizontal line [0][0],[0][1],[0][2] is reported as state 1 with player 2 to move |
| `Scenarios.MainDiagonalWin` | src/Main/gameCore.java:247-251 | Player1 filling the main diagonal is reported as state 1 |
| `Scenarios.HorizontalLineForPlayer2` | src/Main/gameCore.java:183-186 | a board where only Player2 has a line is classified 2 |
| `Scenarios.SecondPlayerWin` | src/Main/gameCore.java:183-186 | Player2 filling [1][0],[1][1],[1][2] on the sixth move is reported as state 2 with player 1 to move |
| `Scenarios.DrawnBoardIsTie` | src/Main/gameCore.java:187-190 | the full board X O X / X O O / O X X without a line is classified -1 |
| `Scenarios.TieGameScenario` | src/Main/gameCore.java:187-192 | nine moves that fill the board without a line are reported as state -1 |
| `Scenarios.OccupiedCellOverwritten` | src/Main/gameCore.java:154-165 | a second move onto the same cell replaces the piece and still passes the turn |
| `Scenarios.BrokenLineIsNoWin` | src/Main/gameCore.java:192 | a board without a line and with an Empty cell is classified 0 |
| `Scenarios.MoveAfterWinUndoesIt` | src/Main/gameCore.java:154-168 | a move after a win is still made; overwriting a cell of the winning line turns the state from 1 back to 0 |
| `Scenarios.BothLinesReportPlayer1` | src/Main/gameCore.java:179-186 | when both players have a line (possible only after a move past a win) the state is 1 |

## Left out

- `src/Main/UI.java` and `src/Main/main.java` are not part of this model: JavaFX layout, images, styling, click handlers, window handling and the UI-side guards (an occupied tile ignores clicks, the board is frozen after a win or tie).
- Out-of-range coordinates: `makeMove` would throw an array index exception; the model requires 0 ≤ x, y < 3 instead of modelling the exception.
- The board before the first `newGame`: Java's `new piece[3][3]` holds nulls until the constructor's call to `newGame` fills it; the model's array starts with some piece and the constructor clears it the same way, so no caller can see the difference.
- The return types `Integer` and `Boolean` of `updateGameState`, `checkFullBoard` and `checkWin` are boxed; they never return null, so the model returns plain `int` and `bool`.
- The player and state fields are 32-bit `int`s in the source; they only ever hold 1, 2, -1 and 0, so the model uses unbounded `int` without wrap-around.
- A refusing move (an error result for an occupied cell or a finished game) is not in the source and is not modelled; the scenarios above show what the source does instead.
- The comment block that closes `gameCore.java` (an exercise on replacing the integer codes with enums) holds no code.
