/**
 The rules of the tic-tac-toe engine as pure functions on board values:
 the three kinds of piece, the 3x3 board, the line and full-board tests,
 the classification of a board into one of the four integer game-state
 codes, and the effect of a move on a whole game value.

 The engine class (module Engine) is proved to compute exactly these.
 */
module Rules {

  /** The three pieces a cell can hold, in the source's declaration order. */
  datatype Piece = Player1 | Player2 | Empty

  /** Game-state codes as the engine stores them. */
  const Player1Win: int := 1
  const Player2Win: int := 2
  const TieGame: int := -1
  const NoWin: int := 0

  /** One first-index slot of the board: the cells [x][0], [x][1], [x][2].
      The names Row, Horizontal and Vertical follow the engine's own comments,
      which call the triple [i][0..2] horizontal; the window draws
      gameBoard[x][y] in column x, so on screen a Row is a column. */
  datatype Row = Row(c0: Piece, c1: Piece, c2: Piece)

  /** A board value: the slots [0], [1], [2]. */
  datatype Grid = Grid(r0: Row, r1: Row, r2: Row)

  predicate InRange(x: int, y: int) {
    0 <= x < 3 && 0 <= y < 3
  }

  const EmptyRow: Row := Row(Empty, Empty, Empty)
  const EmptyGrid: Grid := Grid(EmptyRow, EmptyRow, EmptyRow)

  function RowAt(g: Grid, x: int): (r: Row)
    requires 0 <= x < 3
  {
    if x == 0 then g.r0 else if x == 1 then g.r1 else g.r2
  }

  function CellOf(r: Row, y: int): (p: Piece)
    requires 0 <= y < 3
  {
    if y == 0 then r.c0 else if y == 1 then r.c1 else r.c2
  }

  /** The cell the engine addresses as gameBoard[x][y]. */
  function At(g: Grid, x: int, y: int): (p: Piece)
    requires InRange(x, y)
  {
    CellOf(RowAt(g, x), y)
  }

  /** Two boards with the same cells are the same board. */
  lemma GridExtensionality(a: Grid, b: Grid)
    requires forall x, y :: InRange(x, y) ==> At(a, x, y) == At(b, x, y)
    ensures a == b
  {
    assert At(a, 0, 0) == At(b, 0, 0) && At(a, 0, 1) == At(b, 0, 1) && At(a, 0, 2) == At(b, 0, 2);
    assert At(a, 1, 0) == At(b, 1, 0) && At(a, 1, 1) == At(b, 1, 1) && At(a, 1, 2) == At(b, 1, 2);
    assert At(a, 2, 0) == At(b, 2, 0) && At(a, 2, 1) == At(b, 2, 1) && At(a, 2, 2) == At(b, 2, 2);
  }

  // ---------------------------------------------------------------------------
  // Lines and the full board
  // ---------------------------------------------------------------------------

  /** The engine's "vertical" triple i: cells [0][i], [1][i], [2][i]. */
  predicate Vertical(g: Grid, p: Piece, i: int)
    requires 0 <= i < 3
  {
    At(g, 0, i) == p && At(g, 1, i) == p && At(g, 2, i) == p
  }

  /** The engine's "horizontal" triple i: cells [i][0], [i][1], [i][2]. */
  predicate Horizontal(g: Grid, p: Piece, i: int)
    requires 0 <= i < 3
  {
    At(g, i, 0) == p && At(g, i, 1) == p && At(g, i, 2) == p
  }

  /** Cells [0][0], [1][1], [2][2]. */
  predicate MainDiagonal(g: Grid, p: Piece) {
    At(g, 0, 0) == p && At(g, 1, 1) == p && At(g, 2, 2) == p
  }

  /** Cells [2][0], [1][1], [0][2]. */
  predicate AntiDiagonal(g: Grid, p: Piece) {
    At(g, 2, 0) == p && At(g, 1, 1) == p && At(g, 0, 2) == p
  }

  /** The eight lines of a 3x3 board, each listed as its three cells. */
  const Lines: seq<seq<(int, int)>> := [
    [(0, 0), (0, 1), (0, 2)], [(1, 0), (1, 1), (1, 2)], [(2, 0), (2, 1), (2, 2)],
    [(0, 0), (1, 0), (2, 0)], [(0, 1), (1, 1), (2, 1)], [(0, 2), (1, 2), (2, 2)],
    [(0, 0), (1, 1), (2, 2)], [(0, 2), (1, 1), (2, 0)]
  ]

  /** Every cell of `line` is on the board and holds p. */
  predicate Filled(g: Grid, p: Piece, line: seq<(int, int)>) {
    forall k :: 0 <= k < |line| ==> InRange(line[k].0, line[k].1) && At(g, line[k].0, line[k].1) == p
  }

  /** One of the engine's eight triples is entirely p. */
  predicate HasLine(g: Grid, p: Piece) {
    || (exists i :: 0 <= i < 3 && Vertical(g, p, i))
    || (exists i :: 0 <= i < 3 && Horizontal(g, p, i))
    || MainDiagonal(g, p)
    || AntiDiagonal(g, p)
  }

  /** A win for p: p is a player's piece and has a line (Empty never wins). */
  predicate Wins(g: Grid, p: Piece) {
    p != Empty && HasLine(g, p)
  }

  function EmptiesIn(r: Row): (n: nat) {
    (if r.c0 == Empty then 1 else 0) + (if r.c1 == Empty then 1 else 0) + (if r.c2 == Empty then 1 else 0)
  }

  /** The number of Empty cells on the board. */
  function EmptyCount(g: Grid): (n: nat)
    ensures n <= 9
  {
    EmptiesIn(g.r0) + EmptiesIn(g.r1) + EmptiesIn(g.r2)
  }

  /** No cell is Empty. */
  predicate IsFull(g: Grid) {
    forall x, y :: 0 <= x < 3 && 0 <= y < 3 ==> At(g, x, y) != Empty
  }

  lemma FilledTriple(g: Grid, p: Piece, a: (int, int), b: (int, int), c: (int, int))
    requires InRange(a.0, a.1) && InRange(b.0, b.1) && InRange(c.0, c.1)
    ensures Filled(g, p, [a, b, c]) <==> At(g, a.0, a.1) == p && At(g, b.0, b.1) == p && At(g, c.0, c.1) == p
  {
    var line := [a, b, c];
    if Filled(g, p, line) {
      assert line[0] == a && line[1] == b && line[2] == c;
    }
  }

  /** Line k of the table is the engine's triple of the same kind. */
  lemma ListedLine(g: Grid, p: Piece, k: int)
    requires 0 <= k < |Lines|
    ensures Filled(g, p, Lines[k]) <==>
      if k < 3 then Horizontal(g, p, k)
      else if k < 6 then Vertical(g, p, k - 3)
      else if k == 6 then MainDiagonal(g, p)
      else AntiDiagonal(g, p)
  {
    if k == 0 { FilledTriple(g, p, (0, 0), (0, 1), (0, 2)); }
    else if k == 1 { FilledTriple(g, p, (1, 0), (1, 1), (1, 2)); }
    else if k == 2 { FilledTriple(g, p, (2, 0), (2, 1), (2, 2)); }
    else if k == 3 { FilledTriple(g, p, (0, 0), (1, 0), (2, 0)); }
    else if k == 4 { FilledTriple(g, p, (0, 1), (1, 1), (2, 1)); }
    else if k == 5 { FilledTriple(g, p, (0, 2), (1, 2), (2, 2)); }
    else if k == 6 { FilledTriple(g, p, (0, 0), (1, 1), (2, 2)); }
    else { FilledTriple(g, p, (0, 2), (1, 1), (2, 0)); }
  }

  /** The engine's four checks cover exactly the eight lines of the board:
      p has a line when it fills one of them, and wins when it is moreover a
      player's piece. */
  lemma LinesCovered(g: Grid, p: Piece)
    ensures HasLine(g, p) <==> exists k :: 0 <= k < |Lines| && Filled(g, p, Lines[k])
    ensures Wins(g, p) <==> (p == Player1 || p == Player2) && exists k :: 0 <= k < |Lines| && Filled(g, p, Lines[k])
  {
    if exists i :: 0 <= i < 3 && Horizontal(g, p, i) {
      var i :| 0 <= i < 3 && Horizontal(g, p, i);
      ListedLine(g, p, i);
    } else if exists i :: 0 <= i < 3 && Vertical(g, p, i) {
      var i :| 0 <= i < 3 && Vertical(g, p, i);
      ListedLine(g, p, i + 3);
    } else if MainDiagonal(g, p) {
      ListedLine(g, p, 6);
    } else if AntiDiagonal(g, p) {
      ListedLine(g, p, 7);
    }
    if exists k :: 0 <= k < |Lines| && Filled(g, p, Lines[k]) {
      var k :| 0 <= k < |Lines| && Filled(g, p, Lines[k]);
      ListedLine(g, p, k);
    }
  }

  /** The board is full exactly when it has no Empty cell left to count. */
  lemma FullIffNoEmptyCell(g: Grid)
    ensures IsFull(g) <==> EmptyCount(g) == 0
  {
    if EmptyCount(g) != 0 {
      assert || At(g, 0, 0) == Empty || At(g, 0, 1) == Empty || At(g, 0, 2) == Empty
             || At(g, 1, 0) == Empty || At(g, 1, 1) == Empty || At(g, 1, 2) == Empty
             || At(g, 2, 0) == Empty || At(g, 2, 1) == Empty || At(g, 2, 2) == Empty;
    }
  }

  /** The game-state code of a board: a line of Player1 first, then a line of
      Player2, then a full board, otherwise no win. */
  function Classify(g: Grid): (r: int)
    ensures r in {Player1Win, Player2Win, TieGame, NoWin}
    ensures r == Player1Win || r == Player2Win <==> HasLine(g, Player1) || HasLine(g, Player2)
  {
    if Wins(g, Player1) then Player1Win
    else if Wins(g, Player2) then Player2Win
    else if IsFull(g) then TieGame
    else NoWin
  }

  /** The classification is exhaustive and ordered: every board gets exactly
      one of the four codes, and each code is given under exactly the
      condition that the evaluation order implies. */
  lemma ClassifyOrdered(g: Grid)
    ensures Classify(g) == Player1Win <==> HasLine(g, Player1)
    ensures Classify(g) == Player2Win <==> HasLine(g, Player2) && !HasLine(g, Player1)
    ensures Classify(g) == TieGame <==> IsFull(g) && !HasLine(g, Player1) && !HasLine(g, Player2)
    ensures Classify(g) == NoWin <==> !IsFull(g) && !HasLine(g, Player1) && !HasLine(g, Player2)
  {
  }

  /** The empty board is classified as "no win". */
  lemma EmptyGridIsNoWin()
    ensures Classify(EmptyGrid) == NoWin
  {
    assert At(EmptyGrid, 0, 0) == Empty;
  }

  // ---------------------------------------------------------------------------
  // Whole-game values and moves
  // ---------------------------------------------------------------------------

  /** The engine's three fields as one value: the board, the player to move
      (1 or 2) and the game-state code. */
  datatype Game = Game(board: Grid, player: int, state: int)

  /** The state of a fresh engine and of one after a new game. */
  const Initial: Game := Game(EmptyGrid, 1, NoWin)

  /** What a consistent engine holds: a player code in {1, 2} and the
      classification of the board as its state. */
  predicate ValidGame(s: Game) {
    && (s.player == 1 || s.player == 2)
    && s.state == Classify(s.board)
  }

  lemma InitialIsValid()
    ensures ValidGame(Initial)
    ensures forall x, y :: InRange(x, y) ==> At(Initial.board, x, y) == Empty
  {
    EmptyGridIsNoWin();
  }

  /** The piece a move by player code `player` writes: Player1 for code 1 and
      Player2 for every other code. */
  function PieceOf(player: int): (p: Piece) {
    if player == 1 then Player1 else Player2
  }

  /** The player code that moves next: 2 after 1, and 1 after every other code. */
  function NextPlayer(player: int): (next: int) {
    if player == 1 then 2 else 1
  }

  function WithCell(r: Row, y: int, p: Piece): (r': Row)
    requires 0 <= y < 3
  {
    if y == 0 then r.(c0 := p) else if y == 1 then r.(c1 := p) else r.(c2 := p)
  }

  /** The board with cell (x, y) set to p and every other cell as it was. */
  function Place(g: Grid, x: int, y: int, p: Piece): (r: Grid)
    requires InRange(x, y)
    ensures At(r, x, y) == p
    ensures forall i, j :: InRange(i, j) && (i, j) != (x, y) ==> At(r, i, j) == At(g, i, j)
  {
    if x == 0 then g.(r0 := WithCell(g.r0, y, p))
    else if x == 1 then g.(r1 := WithCell(g.r1, y, p))
    else g.(r2 := WithCell(g.r2, y, p))
  }

  /** One move: write the mover's piece at (x, y) without checking the cell,
      hand the turn to the other player, and reclassify the new board. The
      result is consistent whatever the game held before, and the cell is
      occupied afterwards. */
  function Move(s: Game, x: int, y: int): (t: Game)
    requires InRange(x, y)
    ensures ValidGame(t)
    ensures At(t.board, x, y) != Empty
  {
    var b := Place(s.board, x, y, PieceOf(s.player));
    Game(b, NextPlayer(s.player), Classify(b))
  }

  /** A move changes exactly the cell it names, writes the mover's piece
      there, alternates the turn between 1 and 2 and leaves a consistent game,
      from any board whatever its player and state codes. */
  lemma MoveEffect(s: Game, x: int, y: int)
    requires InRange(x, y)
    ensures At(Move(s, x, y).board, x, y) == (if s.player == 1 then Player1 else Player2)
    ensures forall i, j :: InRange(i, j) && (i, j) != (x, y) ==> At(Move(s, x, y).board, i, j) == At(s.board, i, j)
    ensures Move(s, x, y).player == (if s.player == 1 then 2 else 1)
    ensures ValidGame(Move(s, x, y))
  {
  }

  /** A move onto an Empty cell uses up exactly one Empty cell. */
  lemma MoveUsesOneEmptyCell(s: Game, x: int, y: int)
    requires InRange(x, y) && At(s.board, x, y) == Empty
    ensures EmptyCount(Move(s, x, y).board) == EmptyCount(s.board) - 1
  {
  }

  /** Every move of a list lies on the board. */
  predicate AllInRange(moves: seq<(int, int)>) {
    forall k :: 0 <= k < |moves| ==> InRange(moves[k].0, moves[k].1)
  }

  /** The game after the moves are made in order, each by whoever is to move.
      Moves keep the engine's invariant however many are made, and after at
      least one move it holds whatever the game held before. */
  function Play(s: Game, moves: seq<(int, int)>): (t: Game)
    requires AllInRange(moves)
    ensures ValidGame(s) ==> ValidGame(t)
    ensures moves != [] ==> ValidGame(t)
    decreases |moves|
  {
    if moves == [] then s
    else Play(Move(s, moves[0].0, moves[0].1), moves[1..])
  }

  /** One more move after a list of moves is the game of the longer list. */
  lemma {:induction false} PlayOneMore(s: Game, moves: seq<(int, int)>, x: int, y: int)
    requires AllInRange(moves) && InRange(x, y)
    ensures AllInRange(moves + [(x, y)])
    ensures Play(s, moves + [(x, y)]) == Move(Play(s, moves), x, y)
    decreases |moves|
  {
    if moves == [] {
      assert moves + [(x, y)] == [(x, y)];
      assert [(x, y)][1..] == [];
    } else {
      assert (moves + [(x, y)])[1..] == moves[1..] + [(x, y)];
      PlayOneMore(Move(s, moves[0].0, moves[0].1), moves[1..], x, y);
    }
  }

  /** Every move lands on a cell that is Empty when it is made. */
  predicate OntoEmptyCells(s: Game, moves: seq<(int, int)>)
    requires AllInRange(moves)
    decreases |moves|
  {
    || moves == []
    || (&& At(s.board, moves[0].0, moves[0].1) == Empty
        && OntoEmptyCells(Move(s, moves[0].0, moves[0].1), moves[1..]))
  }

  /** Moves onto Empty cells use up one Empty cell each, so there can be no
      more of them than the board has Empty cells. */
  lemma {:induction false} PlayUsesEmptyCells(s: Game, moves: seq<(int, int)>)
    requires AllInRange(moves) && OntoEmptyCells(s, moves)
    ensures EmptyCount(Play(s, moves).board) == EmptyCount(s.board) - |moves|
    ensures |moves| <= EmptyCount(s.board)
    decreases |moves|
  {
    if moves != [] {
      MoveUsesOneEmptyCell(s, moves[0].0, moves[0].1);
      PlayUsesEmptyCells(Move(s, moves[0].0, moves[0].1), moves[1..]);
    }
  }

  /** From a new game, a game whose moves all land on Empty cells lasts at
      most nine moves, and after the ninth the board is full and the state
      is a win or a tie, never "no win". */
  lemma NineMovesDecide(moves: seq<(int, int)>)
    requires AllInRange(moves) && OntoEmptyCells(Initial, moves)
    ensures |moves| <= 9
    ensures |moves| == 9 ==> IsFull(Play(Initial, moves).board) && Play(Initial, moves).state != NoWin
  {
    PlayUsesEmptyCells(Initial, moves);
    assert EmptyCount(EmptyGrid) == 9;
    FullIffNoEmptyCell(Play(Initial, moves).board);
    InitialIsValid();
  }

  /** Turns alternate strictly: after an even number of moves the starting
      player is to move again, after an odd number the other one. */
  lemma {:induction false} PlayAlternates(s: Game, moves: seq<(int, int)>)
    requires (s.player == 1 || s.player == 2) && AllInRange(moves)
    ensures Play(s, moves).player == if |moves| % 2 == 0 then s.player else 3 - s.player
    decreases |moves|
  {
    if moves != [] {
      PlayAlternates(Move(s, moves[0].0, moves[0].1), moves[1..]);
    }
  }

  /** From a new game, player 1 is to move after move k exactly when k is even. */
  lemma TurnAlternation(moves: seq<(int, int)>)
    requires AllInRange(moves)
    ensures Play(Initial, moves).player == if |moves| % 2 == 0 then 1 else 2
  {
    PlayAlternates(Initial, moves);
  }
}
