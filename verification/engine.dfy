/**
 The game engine object: a 3x3 board updated in place, the player to move
 and the stored game-state code. Each method is proved against the pure
 rules of module Rules: the ones that change the engine through the whole
 state as a value, Snapshot(), the board scans through the board as a
 value, Cells().
 */
module Engine {
  import opened Rules

  class GameCore {
    /** The board, written in place by ClearBoard and MakeMove; never replaced. */
    const gameBoard: array2<Piece>
    /** 1 when Player1 is to move, 2 when Player2 is. */
    var currentPlayer: int
    /** 1 Player1 win, 2 Player2 win, -1 tie game, 0 no win. */
    var gameState: int

    ghost predicate Shaped() {
      gameBoard.Length0 == 3 && gameBoard.Length1 == 3
    }

    /** The board as a value. */
    ghost function Cells(): (g: Grid)
      reads gameBoard
      requires Shaped()
      ensures forall x, y :: InRange(x, y) ==> At(g, x, y) == gameBoard[x, y]
    {
      Grid(Row(gameBoard[0, 0], gameBoard[0, 1], gameBoard[0, 2]),
           Row(gameBoard[1, 0], gameBoard[1, 1], gameBoard[1, 2]),
           Row(gameBoard[2, 0], gameBoard[2, 1], gameBoard[2, 2]))
    }

    /** The three fields as one Game value. */
    ghost function Snapshot(): (s: Game)
      reads this, gameBoard
      requires Shaped()
    {
      Game(Cells(), currentPlayer, gameState)
    }

    /** The object invariant: player and state codes within their conventions,
        and the stored state always the classification of the board. */
    ghost predicate Valid()
      reads this, gameBoard
    {
      Shaped() && ValidGame(Snapshot())
    }

    /** A fresh engine starts a new game. */
    constructor ()
      ensures Valid() && fresh(gameBoard)
      ensures Snapshot() == Initial
    {
      gameBoard := new Piece[3, 3];
      currentPlayer := 1;
      gameState := NoWin;
      new;
      NewGame();
    }

    /** The player code to move next; always 1 or 2 on a valid engine. */
    method GetCurrentPlayer() returns (r: int)
      ensures r == currentPlayer
      ensures Valid() ==> r == 1 || r == 2
    {
      r := currentPlayer;
    }

    /** The stored game-state code; on a valid engine it classifies the board. */
    method GetGameState() returns (r: int)
      ensures r == gameState
      ensures Valid() ==> r == Classify(Cells())
      ensures Valid() ==> r in {Player1Win, Player2Win, TieGame, NoWin}
    {
      r := gameState;
    }

    /** Sets every cell to Empty. */
    method ClearBoard()
      requires Shaped()
      modifies gameBoard
      ensures Cells() == EmptyGrid
    {
      for i := 0 to 3
        invariant forall x, y :: 0 <= x < i && 0 <= y < 3 ==> gameBoard[x, y] == Empty
      {
        for j := 0 to 3
          invariant forall x, y :: 0 <= x < i && 0 <= y < 3 ==> gameBoard[x, y] == Empty
          invariant forall y :: 0 <= y < j ==> gameBoard[i, y] == Empty
        {
          gameBoard[i, j] := Empty;
        }
      }
      GridExtensionality(Cells(), EmptyGrid);
    }

    /** Resets to the initial state, whatever the state was before; so a
        second call leaves the state the first one produced. */
    method NewGame()
      requires Shaped()
      modifies this, gameBoard
      ensures Valid()
      ensures Snapshot() == Initial
      ensures forall x, y :: InRange(x, y) ==> gameBoard[x, y] == Empty
    {
      ClearBoard();
      currentPlayer := 1;
      gameState := NoWin;
      InitialIsValid();
    }

    /** Writes the mover's piece at (x, y), occupied or not, passes the turn
        and stores the classification of the new board. Nothing stops a move
        after a win or a tie. */
    method MakeMove(x: int, y: int)
      requires Shaped()
      requires InRange(x, y)
      modifies this, gameBoard
      ensures Valid()
      ensures Snapshot() == Move(old(Snapshot()), x, y)
      ensures gameBoard[x, y] == (if old(currentPlayer) == 1 then Player1 else Player2)
      ensures forall i, j :: InRange(i, j) && (i, j) != (x, y) ==> gameBoard[i, j] == old(gameBoard[i, j])
      ensures currentPlayer == (if old(currentPlayer) == 1 then 2 else 1)
      ensures gameState == Classify(Cells())
    {
      ghost var before := Snapshot();
      ghost var piece := PieceOf(currentPlayer);
      if currentPlayer == 1 {
        gameBoard[x, y] := Player1;
        currentPlayer := 2;
      } else {
        gameBoard[x, y] := Player2;
        currentPlayer := 1;
      }
      ghost var placed := Place(before.board, x, y, piece);
      forall i, j | InRange(i, j)
        ensures At(Cells(), i, j) == At(placed, i, j)
      {
        if (i, j) != (x, y) {
          assert gameBoard[i, j] == old(gameBoard[i, j]);
        }
      }
      GridExtensionality(Cells(), placed);
      gameState := UpdateGameState();
      assert Snapshot() == Move(before, x, y);
    }

    /** The game-state code of the current board, in the order: Player1 line,
        Player2 line, full board, otherwise no win. */
    method UpdateGameState() returns (r: int)
      requires Shaped()
      ensures r == Classify(Cells())
      ensures r == Player1Win <==> HasLine(Cells(), Player1)
      ensures r == Player2Win <==> HasLine(Cells(), Player2) && !HasLine(Cells(), Player1)
      ensures r == TieGame <==> IsFull(Cells()) && !HasLine(Cells(), Player1) && !HasLine(Cells(), Player2)
      ensures r == NoWin <==> !IsFull(Cells()) && !HasLine(Cells(), Player1) && !HasLine(Cells(), Player2)
    {
      ClassifyOrdered(Cells());
      var win1 := CheckWin(Player1);
      if win1 {
        return Player1Win;
      }
      var win2 := CheckWin(Player2);
      if win2 {
        return Player2Win;
      }
      var full := CheckFullBoard();
      if full {
        return TieGame;
      }
      return NoWin;
    }

    /** True exactly when no cell is Empty. */
    method CheckFullBoard() returns (r: bool)
      requires Shaped()
      ensures r <==> IsFull(Cells())
      ensures r <==> forall x, y :: InRange(x, y) ==> gameBoard[x, y] != Empty
    {
      for i := 0 to 3
        invariant forall x, y :: 0 <= x < i && 0 <= y < 3 ==> gameBoard[x, y] != Empty
      {
        for j := 0 to 3
          invariant forall x, y :: 0 <= x < i && 0 <= y < 3 ==> gameBoard[x, y] != Empty
          invariant forall y :: 0 <= y < j ==> gameBoard[i, y] != Empty
        {
          if gameBoard[i, j] == Empty {
            return false;
          }
        }
      }
      return true;
    }

    /** False for Empty; for a player's piece, true exactly when some vertical,
        horizontal or diagonal triple is entirely that piece. */
    method CheckWin(player: Piece) returns (r: bool)
      requires Shaped()
      ensures r <==> Wins(Cells(), player)
      ensures player == Empty ==> !r
    {
      if player == Empty {
        return false;
      }
      ghost var g := Cells();
      for i := 0 to 3
        invariant forall k :: 0 <= k < i ==> !Vertical(g, player, k)
      {
        if gameBoard[0, i] == player && gameBoard[1, i] == player && gameBoard[2, i] == player {
          assert Vertical(g, player, i);
          return true;
        }
      }
      for i := 0 to 3
        invariant forall k :: 0 <= k < i ==> !Horizontal(g, player, k)
      {
        if gameBoard[i, 0] == player && gameBoard[i, 1] == player && gameBoard[i, 2] == player {
          assert Horizontal(g, player, i);
          return true;
        }
      }
      if gameBoard[0, 0] == player && gameBoard[1, 1] == player && gameBoard[2, 2] == player {
        assert MainDiagonal(g, player);
        return true;
      }
      if gameBoard[2, 0] == player && gameBoard[1, 1] == player && gameBoard[0, 2] == player {
        assert AntiDiagonal(g, player);
        return true;
      }
      assert !MainDiagonal(g, player) && !AntiDiagonal(g, player);
      return false;
    }
  }

  /** Two new games in a row leave the same state as one. */
  method NewGameIdempotent(core: GameCore)
    requires core.Shaped()
    modifies core, core.gameBoard
    ensures core.Valid() && core.Snapshot() == Initial
  {
    core.NewGame();
    ghost var once := core.Snapshot();
    core.NewGame();
    assert core.Snapshot() == once;
  }

  /** A list of on-board moves made one MakeMove at a time on a new engine
      leaves it in the state that the list of moves gives from a new game:
      player 1 is to move after an even number of moves and player 2 after an
      odd one, and the stored state is the one the moves produce. */
  method PlayOnEngine(moves: seq<(int, int)>) returns (player: int, state: int)
    requires AllInRange(moves)
    ensures player == (if |moves| % 2 == 0 then 1 else 2)
    ensures state == Play(Initial, moves).state
    ensures state in {Player1Win, Player2Win, TieGame, NoWin}
  {
    var core := new GameCore();
    for k := 0 to |moves|
      invariant core.Shaped() && fresh(core.gameBoard)
      invariant AllInRange(moves[..k])
      invariant core.Snapshot() == Play(Initial, moves[..k])
    {
      PlayOneMore(Initial, moves[..k], moves[k].0, moves[k].1);
      assert moves[..k + 1] == moves[..k] + [moves[k]];
      core.MakeMove(moves[k].0, moves[k].1);
    }
    assert moves[..|moves|] == moves;
    TurnAlternation(moves);
    player := core.GetCurrentPlayer();
    state := core.GetGameState();
  }
}
