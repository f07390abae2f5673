/** Concrete boards that show what checkWin does, winCount being 2 (three in a
    row wanted), the value every game the program sets up plays with. */
module Scenarios {
  import opened Grid
  import opened Players
  import opened WinCheck
  import opened WinFacts
  import opened Game

  /** X has played (0,0) and (0,1), O (1,1) and (1,0) (as x, y); X now plays
      (0,2): column 0 holds three X and the move wins. */
  lemma ColumnOfThreeWins()
    ensures var g := [['X', 'O', ' '],
                      ['X', 'O', ' '],
                      ['X', ' ', ' ']];
            IsSquare(g) && Evaluate(g, 2, 0, 'X', 2) == WON
  {
    var g := [['X', 'O', ' '],
              ['X', 'O', ' '],
              ['X', ' ', ' ']];
    assert RayHit(g, 2, 0, 'X', Minus, Still, 1) && RayHit(g, 2, 0, 'X', Minus, Still, 2);
    assert GroupWins(g, 2, 0, 'X', Column, 2);
  }

  /** The diagonal group counts the whole square above-left of the move: X at
      (row 0, col 1) and (row 1, col 0) make X's move at (2, 2) a win although
      no line holds three X. */
  lemma QuadrantWinsWithoutLine()
    ensures var g := [[' ', 'X', ' '],
                      ['X', ' ', ' '],
                      [' ', ' ', 'X']];
            IsSquare(g) && Evaluate(g, 2, 2, 'X', 2) == WON
  {
    var g := [[' ', 'X', ' '],
              ['X', ' ', ' '],
              [' ', ' ', 'X']];
    assert QuadHit(g, 2, 2, 'X', Minus, Minus, 1, 2) && QuadHit(g, 2, 2, 'X', Minus, Minus, 2, 1);
    assert GroupWins(g, 2, 2, 'X', Diagonal, 2);
  }

  /** The row halves do not stop at a gap: X O X O X in a row wins for the
      middle X, two X being found within two cells on either side. */
  lemma RowGapsDoNotStop()
    ensures var g := [['X', 'O', 'X', 'O', 'X'],
                      [' ', ' ', ' ', ' ', ' '],
                      [' ', ' ', ' ', ' ', ' '],
                      [' ', ' ', ' ', ' ', ' '],
                      [' ', ' ', ' ', ' ', ' ']];
            IsSquare(g) && Evaluate(g, 0, 2, 'X', 2) == WON
  {
    var g := [['X', 'O', 'X', 'O', 'X'],
              [' ', ' ', ' ', ' ', ' '],
              [' ', ' ', ' ', ' ', ' '],
              [' ', ' ', ' ', ' ', ' '],
              [' ', ' ', ' ', ' ', ' ']];
    assert RayHit(g, 0, 2, 'X', Still, Minus, 2) && RayHit(g, 0, 2, 'X', Still, Plus, 2);
    assert GroupWins(g, 0, 2, 'X', Row, 2);
  }

  /** totalInRow starts again at zero for each group: one X in the diagonal
      group and one in the column group of the move at (2, 2) do not add up
      to a win. */
  lemma GroupsDoNotPool()
    ensures var g := [[' ', ' ', ' '],
                      [' ', 'X', 'X'],
                      [' ', ' ', 'X']];
            IsSquare(g) && Evaluate(g, 2, 2, 'X', 2) == ONGOING
  {
    var g := [[' ', ' ', ' '],
              [' ', 'X', 'X'],
              [' ', ' ', 'X']];
    assert !Full(g) by { assert g[0][0] == Empty; }
    SplitCounts(Diagonal);
    SplitCounts(Column);
    SplitCounts(AntiDiagonal);
    SplitCounts(Row);
  }

  /** The group counts of the move at (2, 2) on the board of GroupsDoNotPool. */
  lemma SplitCounts(grp: Group)
    ensures var g := [[' ', ' ', ' '],
                      [' ', 'X', 'X'],
                      [' ', ' ', 'X']];
            IsSquare(g) && GroupCount(g, 2, 2, 'X', grp, 2) == if grp in {Diagonal, Column} then 1 else 0
  {
    match grp
    case Diagonal =>
    case Column =>
    case AntiDiagonal =>
    case Row =>
  }

  /** A full 3-by-3 board with no line of three: X's last move in the centre
      finds at most one X in every group, so the verdict is a draw. */
  lemma FullBoardDraws()
    ensures var g := [['X', 'X', 'O'],
                      ['O', 'X', 'X'],
                      ['X', 'O', 'O']];
            IsSquare(g) && Evaluate(g, 1, 1, 'X', 2) == DRAW
  {
    DrawCounts(Diagonal);
    DrawCounts(Column);
    DrawCounts(AntiDiagonal);
    DrawCounts(Row);
  }

  /** The group counts of the centre move on the board of FullBoardDraws. */
  lemma DrawCounts(grp: Group)
    ensures var g := [['X', 'X', 'O'],
                      ['O', 'X', 'X'],
                      ['X', 'O', 'O']];
            IsSquare(g) && GroupCount(g, 1, 1, 'X', grp, 2) == 1
  {
    match grp
    case Diagonal =>
    case Column =>
    case AntiDiagonal =>
    case Row =>
  }

  /** X opens in the top-left corner: the verdict leaves the game going. */
  lemma XOpens()
    ensures var g := [['X', ' ', ' '],
                      [' ', ' ', ' '],
                      [' ', ' ', ' ']];
            IsSquare(g) && Evaluate(g, 0, 0, 'X', 2) == ONGOING
  {
    var g := [['X', ' ', ' '],
              [' ', ' ', ' '],
              [' ', ' ', ' ']];
    assert Marks(g, 0, 0, 'X') == {};
    WinNeedsMarks(g, 0, 0, 'X', 2);
    assert !Full(g) by { assert g[2][2] == Empty; }
  }

  /** O answers in the centre: the verdict leaves the game going. */
  lemma OTakesCentre()
    ensures var g := [['X', ' ', ' '],
                      [' ', 'O', ' '],
                      [' ', ' ', ' ']];
            IsSquare(g) && Evaluate(g, 1, 1, 'O', 2) == ONGOING
  {
    var g := [['X', ' ', ' '],
              [' ', 'O', ' '],
              [' ', ' ', ' ']];
    assert Marks(g, 1, 1, 'O') == {};
    WinNeedsMarks(g, 1, 1, 'O', 2);
    assert !Full(g) by { assert g[2][2] == Empty; }
  }

  /** X plays below its first mark: the verdict leaves the game going. */
  lemma XBelowFirst()
    ensures var g := [['X', ' ', ' '],
                      ['X', 'O', ' '],
                      [' ', ' ', ' ']];
            IsSquare(g) && Evaluate(g, 1, 0, 'X', 2) == ONGOING
  {
    var g := [['X', ' ', ' '],
              ['X', 'O', ' '],
              [' ', ' ', ' ']];
    assert Marks(g, 1, 0, 'X') == {(0, 0)};
    WinNeedsMarks(g, 1, 0, 'X', 2);
    assert !Full(g) by { assert g[2][2] == Empty; }
  }

  /** O plays above the centre: the verdict leaves the game going. */
  lemma OAboveCentre()
    ensures var g := [['X', 'O', ' '],
                      ['X', 'O', ' '],
                      [' ', ' ', ' ']];
            IsSquare(g) && Evaluate(g, 0, 1, 'O', 2) == ONGOING
  {
    var g := [['X', 'O', ' '],
              ['X', 'O', ' '],
              [' ', ' ', ' ']];
    assert Marks(g, 0, 1, 'O') == {(1, 1)};
    WinNeedsMarks(g, 0, 1, 'O', 2);
    assert !Full(g) by { assert g[2][2] == Empty; }
  }

  /** The four opening placements, each on an empty cell. */
  lemma OpeningPlacements()
    ensures CanPlace([[' ', ' ', ' '], [' ', ' ', ' '], [' ', ' ', ' ']], 0, 0)
            && Place([[' ', ' ', ' '], [' ', ' ', ' '], [' ', ' ', ' ']], 0, 0, 'X')
               == [['X', ' ', ' '], [' ', ' ', ' '], [' ', ' ', ' ']]
    ensures CanPlace([['X', ' ', ' '], [' ', ' ', ' '], [' ', ' ', ' ']], 1, 1)
            && Place([['X', ' ', ' '], [' ', ' ', ' '], [' ', ' ', ' ']], 1, 1, 'O')
               == [['X', ' ', ' '], [' ', 'O', ' '], [' ', ' ', ' ']]
    ensures CanPlace([['X', ' ', ' '], [' ', 'O', ' '], [' ', ' ', ' ']], 0, 1)
            && Place([['X', ' ', ' '], [' ', 'O', ' '], [' ', ' ', ' ']], 0, 1, 'X')
               == [['X', ' ', ' '], ['X', 'O', ' '], [' ', ' ', ' ']]
    ensures CanPlace([['X', ' ', ' '], ['X', 'O', ' '], [' ', ' ', ' ']], 1, 0)
            && Place([['X', ' ', ' '], ['X', 'O', ' '], [' ', ' ', ' ']], 1, 0, 'O')
               == [['X', 'O', ' '], ['X', 'O', ' '], [' ', ' ', ' ']]
  {
    assert Place([[' ', ' ', ' '], [' ', ' ', ' '], [' ', ' ', ' ']], 0, 0, 'X')[0] == ['X', ' ', ' '];
    assert Place([['X', ' ', ' '], [' ', ' ', ' '], [' ', ' ', ' ']], 1, 1, 'O')[1] == [' ', 'O', ' '];
    assert Place([['X', ' ', ' '], [' ', 'O', ' '], [' ', ' ', ' ']], 0, 1, 'X')[1] == ['X', 'O', ' '];
    assert Place([['X', ' ', ' '], ['X', 'O', ' '], [' ', ' ', ' ']], 1, 0, 'O')[0] == ['X', 'O', ' '];
  }

  lemma BlankThreeByThree(g: Cells)
    requires |g| == 3 && IsSquare(g)
    requires forall r, c :: 0 <= r < |g| && 0 <= c < |g[r]| ==> g[r][c] == Empty
    ensures g == [[' ', ' ', ' '], [' ', ' ', ' '], [' ', ' ', ' ']]
  {
    assert g[0] == [' ', ' ', ' '] && g[1] == [' ', ' ', ' '] && g[2] == [' ', ' ', ' '];
  }

  /** One accepted move that leaves the game going, on a board and for a
      verdict known beforehand. */
  method PlayOn(game: GameMgr, cur: nat, x: int, y: int, t: char, ghost before: Cells, ghost after: Cells)
    returns (next: nat)
    requires game.Valid() && cur < |game.players|
    requires game.players[cur].token == t && game.players[cur].status == ONGOING
    requires game.board.field == before && CanPlace(before, x, y) && Place(before, x, y, t) == after
    requires Evaluate(after, y, x, t, WinCount(game.numToWin)) == ONGOING
    modifies game, game.board
    ensures game.Valid() && game.board == old(game.board) && game.numToWin == old(game.numToWin)
    ensures game.board.field == after && game.players == old(game.players)
    ensures next == NextPlayer(cur, |game.players|)
  {
    var placed;
    placed, next := game.Turn(cur, x, y);
    assert game.players[cur] == old(game.players[cur]);
  }

  /** A move off the board is refused and changes nothing. */
  method PlayOffBoard(game: GameMgr, cur: nat, x: int, y: int) returns (placed: bool, next: nat)
    requires game.Valid() && cur < |game.players| && !InBounds(y, x, |game.board.field|)
    modifies game, game.board
    ensures game.Valid() && game.board == old(game.board) && game.numToWin == old(game.numToWin)
    ensures !placed && game.board.field == old(game.board.field) && game.players == old(game.players) && next == cur
  {
    placed, next := game.Turn(cur, x, y);
  }

  /** An accepted move whose verdict is a win: the mover's status becomes WON
      and the turn stays with them. */
  method PlayWin(game: GameMgr, cur: nat, x: int, y: int, t: char, ghost before: Cells, ghost after: Cells)
    returns (next: nat)
    requires game.Valid() && cur < |game.players| && game.players[cur].token == t
    requires game.board.field == before && CanPlace(before, x, y) && Place(before, x, y, t) == after
    requires Evaluate(after, y, x, t, WinCount(game.numToWin)) == WON
    modifies game, game.board
    ensures game.Valid() && game.board == old(game.board) && game.numToWin == old(game.numToWin)
    ensures game.board.field == after && |game.players| == |old(game.players)|
    ensures game.players[cur].status == WON && next == cur
  {
    var placed;
    placed, next := game.Turn(cur, x, y);
  }

  /** The first two moves of ColumnGame: X in the corner, O in the centre. */
  method Opening(game: GameMgr) returns (cur: nat)
    requires game.Valid() && game.players == [NewPlayer('X'), NewPlayer('O')] && game.numToWin == 2
    requires game.board.field == [[' ', ' ', ' '], [' ', ' ', ' '], [' ', ' ', ' ']]
    modifies game, game.board
    ensures game.Valid() && game.board == old(game.board) && game.numToWin == 2
    ensures game.players == old(game.players) && cur == 0
    ensures game.board.field == [['X', ' ', ' '], [' ', 'O', ' '], [' ', ' ', ' ']]
  {
    OpeningPlacements();
    XOpens();
    cur := PlayOn(game, 0, 0, 0, 'X', [[' ', ' ', ' '], [' ', ' ', ' '], [' ', ' ', ' ']],
                                      [['X', ' ', ' '], [' ', ' ', ' '], [' ', ' ', ' ']]);
    OTakesCentre();
    cur := PlayOn(game, cur, 1, 1, 'O', [['X', ' ', ' '], [' ', ' ', ' '], [' ', ' ', ' ']],
                                        [['X', ' ', ' '], [' ', 'O', ' '], [' ', ' ', ' ']]);
  }

  /** The next two moves: X below its first mark, O above the centre. */
  method MiddleGame(game: GameMgr) returns (cur: nat)
    requires game.Valid() && game.players == [NewPlayer('X'), NewPlayer('O')] && game.numToWin == 2
    requires game.board.field == [['X', ' ', ' '], [' ', 'O', ' '], [' ', ' ', ' ']]
    modifies game, game.board
    ensures game.Valid() && game.board == old(game.board) && game.numToWin == 2
    ensures game.players == old(game.players) && cur == 0
    ensures game.board.field == [['X', 'O', ' '], ['X', 'O', ' '], [' ', ' ', ' ']]
  {
    OpeningPlacements();
    XBelowFirst();
    cur := PlayOn(game, 0, 0, 1, 'X', [['X', ' ', ' '], [' ', 'O', ' '], [' ', ' ', ' ']],
                                      [['X', ' ', ' '], ['X', 'O', ' '], [' ', ' ', ' ']]);
    OAboveCentre();
    cur := PlayOn(game, cur, 1, 0, 'O', [['X', ' ', ' '], ['X', 'O', ' '], [' ', ' ', ' ']],
                                        [['X', 'O', ' '], ['X', 'O', ' '], [' ', ' ', ' ']]);
  }

  /** The fifth move: X completes column 0 and wins. */
  method ClosingMove(game: GameMgr) returns (cur: nat)
    requires game.Valid() && game.players == [NewPlayer('X'), NewPlayer('O')] && game.numToWin == 2
    requires game.board.field == [['X', 'O', ' '], ['X', 'O', ' '], [' ', ' ', ' ']]
    modifies game, game.board
    ensures game.Valid() && game.board == old(game.board) && |game.players| == 2
    ensures game.board.field == [['X', 'O', ' '], ['X', 'O', ' '], ['X', ' ', ' ']]
    ensures game.players[0].status == WON && cur == 0
  {
    ColumnOfThreeWins();
    assert Place([['X', 'O', ' '], ['X', 'O', ' '], [' ', ' ', ' ']], 0, 2, 'X')[2] == ['X', ' ', ' '];
    cur := PlayWin(game, 0, 0, 2, 'X', [['X', 'O', ' '], ['X', 'O', ' '], [' ', ' ', ' ']],
                                       [['X', 'O', ' '], ['X', 'O', ' '], ['X', ' ', ' ']]);
  }

  /** The game on a 3-by-3 board between X and O: X plays (x, y) = (0,0),
      O (1,1), X (0,1), O (1,0), X (0,2). Every move is accepted, the first
      four leave the game going and pass the turn on, and the fifth wins for
      X, whose turn it stays; a move onto (5,5) is refused beforehand. */
  method ColumnGame() returns (over: bool, winner: nat, refused: bool)
    ensures over && winner == 0 && refused
  {
    var game := new GameMgr.WithPlayers(3, [NewPlayer('X'), NewPlayer('O')]);
    BlankThreeByThree(game.board.field);
    var cur := 0;
    var placed;
    placed, cur := PlayOffBoard(game, cur, 5, 5);
    refused := !placed;
    cur := Opening(game);
    cur := MiddleGame(game);
    cur := ClosingMove(game);
    assert Finished(game.players[0]);
    over := game.Over();
    winner := cur;
  }
}
