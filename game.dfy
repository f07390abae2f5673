/** GameMgr: one board, the players in turn order and numToWin. A turn places
    the current player's token, records checkWin's verdict as that player's
    status, and moves the turn cursor on while the game goes on. */
module Game {
  import opened Grid
  import opened Players
  import opened Boards
  import opened WinCheck

  /** numToWin(n - 1) on an unsigned: zero wraps to the largest value. */
  function UnsignedPred(n: Unsigned): (r: Unsigned)
    ensures r == (n - 1) % 0x1_0000_0000
  {
    if n == 0 then 0xFFFF_FFFF else n - 1
  }

  /** `currPlyr++` followed by the wrap from players.end() to players.begin(). */
  function NextPlayer(cur: nat, count: nat): (next: nat)
    requires cur < count
    ensures next < count
    ensures next == (cur + 1) % count
  {
    if cur + 1 == count then 0 else cur + 1
  }

  /** The cursor after k turns that each leave the game going. */
  function Advance(cur: nat, k: nat, count: nat): (r: nat)
    requires cur < count
    ensures r < count
  {
    if k == 0 then cur else NextPlayer(Advance(cur, k - 1, count), count)
  }

  /** Within one round the cursor moves k places on, wrapping once past the
      last player. */
  lemma {:induction false} AdvanceWithinRound(cur: nat, k: nat, count: nat)
    requires cur < count && k <= count
    ensures Advance(cur, k, count) == if cur + k < count then cur + k else cur + k - count
  {
    if k > 0 {
      AdvanceWithinRound(cur, k - 1, count);
    }
  }

  /** a turns and then b more are a + b turns. */
  lemma {:induction false} AdvanceCompose(cur: nat, a: nat, b: nat, count: nat)
    requires cur < count
    ensures Advance(cur, a + b, count) == Advance(Advance(cur, a, count), b, count)
  {
    if b > 0 {
      AdvanceCompose(cur, a, b - 1, count);
    }
  }

  /** Turn order is round robin: after one ongoing turn per player the cursor
      is back where it started, so the order repeats with period count. */
  lemma TurnOrderRepeats(cur: nat, k: nat, count: nat)
    requires cur < count
    ensures Advance(cur, count, count) == cur
    ensures Advance(cur, count + k, count) == Advance(cur, k, count)
  {
    AdvanceWithinRound(cur, count, count);
    AdvanceCompose(cur, count, k, count);
  }

  /** Some player has drawn or won. */
  predicate AnyFinished(ps: seq<Player>) {
    exists i :: 0 <= i < |ps| && Finished(ps[i])
  }

  /** Recording a verdict on the player of a game still going on ends the
      game exactly when the verdict is a draw or a win. */
  lemma RecordVerdict(ps: seq<Player>, cur: nat, s: int)
    requires cur < |ps| && !AnyFinished(ps)
    ensures AnyFinished(ps[cur := ps[cur].(status := s)]) <==> s == DRAW || s == WON
  {
    var ps' := ps[cur := ps[cur].(status := s)];
    if s == DRAW || s == WON {
      assert Finished(ps'[cur]);
    }
  }

  /** Players made by Player(name, token) have not finished, so a game that
      starts with them is not over. */
  lemma NewPlayersNotFinished(tokens: seq<char>)
    ensures !AnyFinished(seq(|tokens|, i requires 0 <= i < |tokens| => NewPlayer(tokens[i])))
  {
  }

  /** A move on a board with no empty cell left ends the game: only a win or
      a draw can come back. With PlaceUsesOneEmptyCell and EmptyCountAtMost
      this bounds a game to size * size successful placements. */
  lemma NoEmptyCellEndsGame(g: Cells, row: int, col: int, t: char, w: int)
    requires IsSquare(g) && EmptyCount(g) == 0
    ensures Evaluate(g, row, col, t, w) == DRAW || Evaluate(g, row, col, t, w) == WON
  {
    EmptyCountZeroIffFull(g);
  }

  class GameMgr {
    var board: Board
    var players: seq<Player>
    var numToWin: Unsigned

    ghost predicate Valid()
      reads this, board
    {
      board.Valid()
    }

    /** GameMgr(size = 3): no players, numToWin keeps its default 2. */
    constructor (size: int)
      ensures Valid() && fresh(board)
      ensures |board.field| == Iterations(size)
      ensures forall r, c :: 0 <= r < |board.field| && 0 <= c < |board.field[r]| ==> board.field[r][c] == Empty
      ensures players == [] && numToWin == 2
    {
      board := new Board(size);
      players := [];
      numToWin := 2;
    }

    /** GameMgr(size, p): numToWin keeps its default 2. */
    constructor WithPlayers(size: int, p: seq<Player>)
      ensures Valid() && fresh(board)
      ensures |board.field| == Iterations(size)
      ensures forall r, c :: 0 <= r < |board.field| && 0 <= c < |board.field[r]| ==> board.field[r][c] == Empty
      ensures players == p && numToWin == 2
    {
      board := new Board(size);
      players := p;
      numToWin := 2;
    }

    /** GameMgr(size, p, n): numToWin is n - 1, since the placed token is
        the first of the n in a row. */
    constructor WithWinLength(size: int, p: seq<Player>, n: Unsigned)
      ensures Valid() && fresh(board)
      ensures |board.field| == Iterations(size)
      ensures forall r, c :: 0 <= r < |board.field| && 0 <= c < |board.field[r]| ==> board.field[r][c] == Empty
      ensures players == p && numToWin == UnsignedPred(n)
    {
      board := new Board(size);
      players := p;
      numToWin := UnsignedPred(n);
    }

    /** The copy constructor: board and players are copied, numToWin is not
        and keeps its default 2. */
    constructor Copy(rhs: GameMgr)
      ensures Valid() == rhs.Valid() && fresh(board)
      ensures board.field == rhs.board.field && players == rhs.players && numToWin == 2
    {
      numToWin := 2;
      board := new Board(3);
      players := [];
      new;
      board.field := rhs.board.field;
      players := rhs.players;
    }

    /** operator=: board and players are copied, numToWin is left as it was. */
    method Assign(rhs: GameMgr)
      requires Valid() && rhs.Valid()
      modifies this, board
      ensures Valid() && board == old(board)
      ensures board.field == old(rhs.board.field) && players == old(rhs.players)
      ensures numToWin == old(numToWin)
    {
      board.field := rhs.board.field;
      players := rhs.players;
    }

    /** operator= as evidently intended: numToWin is copied along with the
        board and the players. */
    method AssignAll(rhs: GameMgr)
      requires Valid() && rhs.Valid()
      modifies this, board
      ensures Valid() && board == old(board)
      ensures board.field == old(rhs.board.field) && players == old(rhs.players)
      ensures numToWin == old(rhs.numToWin)
    {
      board.field := rhs.board.field;
      players := rhs.players;
      numToWin := rhs.numToWin;
    }

    /** over(): some player's status is a draw or a win. */
    method Over() returns (over: bool)
      ensures over <==> AnyFinished(players)
    {
      for i := 0 to |players|
        invariant forall j :: 0 <= j < i ==> !Finished(players[j])
      {
        var p := players[i];
        if p.status == DRAW || p.status == WON {
          return true;
        }
      }
      return false;
    }

    /** turn, once the coordinates are read: try to place the current
        player's token at column x, row y. When the board refuses, nothing
        changes and the same player moves again. Otherwise the player's status
        becomes checkWin's verdict on (row y, column x), and on an ongoing
        verdict the cursor passes to the next player, wrapping at the end. */
    method Turn(cur: nat, x: int, y: int) returns (placed: bool, next: nat)
      requires Valid() && cur < |players|
      modifies this, board
      ensures Valid() && board == old(board) && numToWin == old(numToWin)
      ensures |players| == |old(players)| && next < |players|
      ensures placed <==> CanPlace(old(board.field), x, y)
      ensures !placed ==> board.field == old(board.field) && players == old(players) && next == cur
      ensures placed ==>
                var s := Evaluate(board.field, y, x, old(players[cur]).token, WinCount(numToWin));
                && board.field == Place(old(board.field), x, y, old(players[cur]).token)
                && players == old(players)[cur := old(players[cur]).(status := s)]
                && next == if s == ONGOING then NextPlayer(cur, |players|) else cur
    {
      placed := board.SetChar(x, y, players[cur]);
      if !placed {
        return placed, cur;
      }
      var status := CheckWin(y, x, players[cur], board, numToWin);
      players := players[cur := players[cur].(status := status)];
      next := cur;
      if status == ONGOING {
        next := cur + 1;
        if next == |players| {
          next := 0;
        }
      }
    }
  }

  /** `GameMgr game;` in main followed by `game = GameMgr(fieldSize, plyrs,
      numToWin);` in init: the players and board arrive, but the assignment
      leaves numToWin at 2 whatever win length was asked for. */
  method SetUpGame(fieldSize: int, plyrs: seq<Player>, n: Unsigned) returns (game: GameMgr)
    ensures fresh(game) && game.Valid()
    ensures game.players == plyrs && game.numToWin == 2 && WinCount(game.numToWin) == 2
    ensures |game.board.field| == Iterations(fieldSize)
    ensures forall r, c :: 0 <= r < |game.board.field| && 0 <= c < |game.board.field[r]| ==> game.board.field[r][c] == Empty
  {
    game := new GameMgr(3);
    var made := new GameMgr.WithWinLength(fieldSize, plyrs, n);
    game.Assign(made);
  }

  /** Asking for four in a row: the game set up as written still plays for
      three, winCount being 2 where 3 was asked for. */
  method FourInARowIgnored() returns (asked: int, used: int)
    ensures asked == 3 && used == 2
  {
    var game := SetUpGame(4, [NewPlayer('X'), NewPlayer('O')], 4);
    asked := WinCount(UnsignedPred(4));
    used := WinCount(game.numToWin);
  }

  /** init followed by operator= as evidently intended: the game plays for
      the win length that was asked for, winCount being one less. */
  method SetUpGameIntended(fieldSize: int, plyrs: seq<Player>, n: Unsigned) returns (game: GameMgr)
    ensures fresh(game) && game.Valid()
    ensures game.players == plyrs && game.numToWin == UnsignedPred(n)
    ensures 1 <= n <= 0x8000_0000 ==> WinCount(game.numToWin) == n - 1
    ensures |game.board.field| == Iterations(fieldSize)
    ensures forall r, c :: 0 <= r < |game.board.field| && 0 <= c < |game.board.field[r]| ==> game.board.field[r][c] == Empty
  {
    game := new GameMgr(3);
    var made := new GameMgr.WithWinLength(fieldSize, plyrs, n);
    game.AssignAll(made);
  }
}
