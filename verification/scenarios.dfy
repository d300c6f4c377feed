/**
 Games played on a fresh engine through its public calls (MakeMove, then a
 read of the state), with the codes the engine reports afterwards. Most are
 sequences the window's click handler can send; OccupiedCellOverwritten,
 MoveAfterWinUndoesIt and BothLinesReportPlayer1 make calls that the
 window's guards (an occupied tile ignores clicks, the board is frozen after
 a win) would filter out, and show what the engine itself does with them.
 */
module Scenarios {
  import opened Rules
  import opened Engine

  /** Player1 fills the horizontal line [0][0], [0][1], [0][2] (a column on
      screen) while Player2 plays [1][0], [1][1]. */
  method HorizontalLineWin() returns (state: int, player: int)
    ensures state == Player1Win && player == 2
  {
    var core := new GameCore();
    core.MakeMove(0, 0);
    core.MakeMove(1, 0);
    core.MakeMove(0, 1);
    core.MakeMove(1, 1);
    core.MakeMove(0, 2);
    assert Horizontal(core.Cells(), Player1, 0);
    state := core.GetGameState();
    player := core.GetCurrentPlayer();
  }

  /** Player1 fills the main diagonal while Player2 plays [0][1], [0][2]. */
  method MainDiagonalWin() returns (state: int)
    ensures state == Player1Win
  {
    var core := new GameCore();
    core.MakeMove(0, 0);
    core.MakeMove(0, 1);
    core.MakeMove(1, 1);
    core.MakeMove(0, 2);
    core.MakeMove(2, 2);
    assert MainDiagonal(core.Cells(), Player1);
    state := core.GetGameState();
  }

  /** The board X X . / O O O / . . X: only Player2 has a line. */
  lemma HorizontalLineForPlayer2(b: Grid)
    requires b == Grid(Row(Player1, Player1, Empty), Row(Player2, Player2, Player2), Row(Empty, Empty, Player1))
    ensures Classify(b) == Player2Win
  {
    assert Horizontal(b, Player2, 1);
  }

  /** Player2 fills [1][0], [1][1], [1][2] on the sixth move. */
  method SecondPlayerWin() returns (state: int, player: int)
    ensures state == Player2Win && player == 1
  {
    var core := new GameCore();
    core.MakeMove(0, 0);
    core.MakeMove(1, 0);
    core.MakeMove(0, 1);
    core.MakeMove(1, 1);
    core.MakeMove(2, 2);
    core.MakeMove(1, 2);
    assert core.Cells() == Grid(Row(Player1, Player1, Empty), Row(Player2, Player2, Player2), Row(Empty, Empty, Player1));
    HorizontalLineForPlayer2(core.Cells());
    state := core.GetGameState();
    player := core.GetCurrentPlayer();
  }

  /** The board X O X / X O O / O X X, full with no line for either player. */
  lemma DrawnBoardIsTie(b: Grid)
    requires b == Grid(Row(Player1, Player2, Player1), Row(Player1, Player2, Player2), Row(Player2, Player1, Player1))
    ensures Classify(b) == TieGame
  {
  }

  /** Nine moves that fill the board without a line: a tie. */
  method TieGameScenario() returns (state: int)
    ensures state == TieGame
  {
    var core := new GameCore();
    core.MakeMove(0, 0);
    core.MakeMove(0, 1);
    core.MakeMove(0, 2);
    core.MakeMove(1, 1);
    core.MakeMove(1, 0);
    core.MakeMove(1, 2);
    core.MakeMove(2, 1);
    core.MakeMove(2, 0);
    core.MakeMove(2, 2);
    assert core.Cells() == Grid(Row(Player1, Player2, Player1), Row(Player1, Player2, Player2), Row(Player2, Player1, Player1));
    DrawnBoardIsTie(core.Cells());
    state := core.GetGameState();
  }

  /** A move onto an occupied cell is not refused: Player2's piece replaces
      Player1's and the turn still passes. */
  method OccupiedCellOverwritten() returns (cell: Piece, player: int)
    ensures cell == Player2 && player == 1
  {
    var core := new GameCore();
    core.MakeMove(1, 1);
    core.MakeMove(1, 1);
    cell := core.gameBoard[1, 1];
    player := core.GetCurrentPlayer();
  }

  /** The board O X X / O O . / . . .: no line, cells still empty. */
  lemma BrokenLineIsNoWin(b: Grid)
    requires b == Grid(Row(Player2, Player1, Player1), Row(Player2, Player2, Empty), Row(Empty, Empty, Empty))
    ensures Classify(b) == NoWin
  {
    assert At(b, 2, 2) == Empty;
  }

  /** Nothing stops play after a win: Player2 moves onto [0][0] of Player1's
      horizontal line and the stored state falls back to "no win". */
  method MoveAfterWinUndoesIt() returns (won: int, after: int)
    ensures won == Player1Win && after == NoWin
  {
    var core := new GameCore();
    core.MakeMove(0, 0);
    core.MakeMove(1, 0);
    core.MakeMove(0, 1);
    core.MakeMove(1, 1);
    core.MakeMove(0, 2);
    assert Horizontal(core.Cells(), Player1, 0);
    won := core.GetGameState();
    core.MakeMove(0, 0);
    assert core.Cells() == Grid(Row(Player2, Player1, Player1), Row(Player2, Player2, Empty), Row(Empty, Empty, Empty));
    BrokenLineIsNoWin(core.Cells());
    after := core.GetGameState();
  }

  /** After a win Player2 completes a line too; the state still reports
      Player1, because Player1's lines are looked at first. */
  method BothLinesReportPlayer1() returns (state: int)
    ensures state == Player1Win
  {
    var core := new GameCore();
    core.MakeMove(0, 0);
    core.MakeMove(1, 0);
    core.MakeMove(0, 1);
    core.MakeMove(1, 1);
    core.MakeMove(0, 2);
    core.MakeMove(1, 2);
    assert Horizontal(core.Cells(), Player1, 0) && Horizontal(core.Cells(), Player2, 1);
    state := core.GetGameState();
  }
}
