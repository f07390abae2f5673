# Tic-tac-toe core, modelled in Dafny

A model of the game logic of `tic-tac-toe.cpp`. The program is an N-in-a-row
tic-tac-toe for several players on a square board. The model covers:

- the `Board` class: `initBoard` and the write-once `setChar`;
- the `Player` record, of which only the token and the status matter here;
- the free functions `inBounds` and `checkWin`;
- the `GameMgr` class: its constructors, copy constructor and `operator=`,
  `over()`, and the part of `turn` that follows the input.

Modules, leaf first:

- `Grid`: the grid as a value (`seq<seq<char>>`), the bounds test, the
  placement a successful `setChar` performs, and a count of empty cells.
- `Players`: the `Player` value and the status codes 0 (ongoing), 1 (draw)
  and 2 (won).
- `Boards`: `class Board`, whose `field` the methods reassign.
- `WinCheck`: `checkWin` as an imperative method. It is proved equal to the
  specification function `Evaluate`, which is built from recursive counts
  that follow the source's loops in order.
- `WinFacts`: what those counts mean, stated with sets. It covers which cells
  each group visits, that the placed cell is never counted, that a win needs
  that many other tokens, that a winCount below one never wins, and the
  half-turn symmetry of the verdict.
- `Game`: `class GameMgr` with its board, its players and `numToWin`. It also
  has the round-robin turn cursor and the game set-up at lines 410 and 418.
- `Scenarios`: concrete boards and a whole five-move game played through
  `Turn`.

Where the code departs from the usual N-in-a-row rules, the model follows
the code:

- **Diagonal groups.** They do not follow a diagonal line. Their nested loops
  visit every cell of two `numToWin × numToWin` squares, one on each side of
  the move. So a move can win with no line at all:
  `Scenarios.QuadrantWinsWithoutLine`.
- **Gaps.** The row and column scans do not stop at a gap or at another
  player's token: `Scenarios.RowGapsDoNotStop`.
- **Separate groups.** Each group counts on its own. `totalInRow` starts at
  zero again for the column, the second diagonal and the row:
  `Scenarios.GroupsDoNotPool`.
- **Win length 1.** A win length of 1 (`numToWin` 0) never wins, because every
  scan loop is empty. The draw scan alone decides: `WinFacts.NoWinBelowOne`.
- **The chosen win length is dropped.** `operator=` does not copy `numToWin`.
  The game that `init` assigns therefore always plays with `numToWin` 2
  (three in a row), whatever win length was asked for: `Game.SetUpGame`. See
  Findings.

The turn cursor is an index into `players`. It goes into `Turn` and comes back
out, as the iterator passed by reference does in the source.

## Model

| member | source | states |
|---|---|---|
| `Grid.InBoundsIsCell` | tic-tac-toe.cpp:168-170 | On a square grid, `inBounds(row, col, size)` admits exactly the indices of a cell. So every read that checkWin guards with it is inside the grid. |
| `Grid.Place` | tic-tac-toe.cpp:63 | After the write, the grid is still square and the same size. Cell (y, x) holds the token and every other cell is unchanged. |
| `Grid.PlaceIsWriteOnce` | tic-tac-toe.cpp:59-68 | Once a non-blank token is written, the same placement is refused. A cell is written at most once. |
| `Grid.EmptyCountZeroIffFull` | tic-tac-toe.cpp:264-271 | The number of `' '` cells is zero exactly when the draw scan finds no empty cell. |
| `Grid.PlaceUsesOneEmptyCell` | tic-tac-toe.cpp:59-68 | Each accepted placement of a real token uses up exactly one empty cell. |
| `Grid.EmptyCountAtMost` | tic-tac-toe.cpp:32-40 | A size × size grid has at most size × size empty cells; with `Grid.PlaceUsesOneEmptyCell`, at most size × size placements succeed. |
| `Boards.Board.constructor` | tic-tac-toe.cpp:20 | `Board(size)`: the field has `size` rows (none for a negative size), and every cell is `' '`. |
| `Boards.Board.InitBoard` | tic-tac-toe.cpp:32-40 | Appends `size` rows of `size` blank cells and keeps the rows already there. |
| `Boards.Board.SetChar` | tic-tac-toe.cpp:59-68 | Returns true exactly when x and y are in `[0, size)` and the cell is `' '`. Then the token is at `field[y][x]` and no other cell changes. Otherwise it returns false and the whole grid is unchanged. |
| `WinCheck.WinCount` | tic-tac-toe.cpp:174 | `int winCount = numToWin;` gives the 32-bit `int` that equals `numToWin` modulo 2^32, so values from 2^31 up become negative. |
| `WinCheck.Evaluate` | tic-tac-toe.cpp:172-276 | The verdict is 2, 1 or 0. A full board never gives 0, and 1 only comes on a full board. |
| `WinCheck.ScanQuadrant` | tic-tac-toe.cpp:177-198 | One half of a diagonal group, as nested loops with the early return. It returns a hit exactly when the running count reaches winCount; otherwise it returns the count of the whole square. |
| `WinCheck.ScanRay` | tic-tac-toe.cpp:201-218 | One half of a column or row group, as a single loop. It returns a hit exactly when the running count reaches winCount; otherwise it returns the count of the whole half. |
| `WinCheck.CheckWin` | tic-tac-toe.cpp:172-276 | The four groups in source order, with the counter reset between groups, then the `isDraw` scan. It returns exactly `Evaluate` of the board, the move and `(int)numToWin`. |
| `WinFacts.GroupCountIsHits` | tic-tac-toe.cpp:177-263 | A group's count is the number of offsets in its visited region (two squares, or a line on each side) whose in-bounds cell holds the player's token. |
| `WinFacts.EvaluateWonIff` | tic-tac-toe.cpp:177-263 | checkWin returns 2 if and only if winCount ≥ 1 and some group visits at least winCount cells holding the token. |
| `WinFacts.NoWinBelowOne` | tic-tac-toe.cpp:177-275 | With winCount ≤ 0 the result is never 2, and it is 1 exactly when the board is full. |
| `WinFacts.WinNeedsMarks` | tic-tac-toe.cpp:177-263 | A move wins only when the player already has at least winCount tokens on other cells. |
| `WinFacts.PlacedCellNotCounted` | tic-tac-toe.cpp:177-263 | Changing the cell of the move leaves every group's count unchanged: the placed token is never counted. |
| `WinFacts.WinIgnoresPlacedCell` | tic-tac-toe.cpp:177-263 | Whether a move wins does not depend on what the cell of the move holds. |
| `WinFacts.EvaluateRotated` | tic-tac-toe.cpp:172-276 | Turning the board and the move half a circle gives the same verdict. |
| `Game.UnsignedPred` | tic-tac-toe.cpp:76 | `n - 1` on an `unsigned` is computed modulo 2^32, so 0 wraps to 2^32 - 1. |
| `Game.NextPlayer` | tic-tac-toe.cpp:162-164 | The cursor after `currPlyr++` and the wrap to `begin()` is `(cur + 1) mod count`, and it stays a valid index. |
| `Game.AdvanceWithinRound` | tic-tac-toe.cpp:162-164 | Within one round, k ongoing turns move the cursor k places on and wrap at most once past the last player. |
| `Game.TurnOrderRepeats` | tic-tac-toe.cpp:162-164 | After one ongoing turn per player the cursor is back where it started, so the turn order repeats with period `|players|`. |
| `Game.RecordVerdict` | tic-tac-toe.cpp:88-93 | In a game still going on, storing a verdict as a player's status makes `over()` true exactly when the verdict is 1 or 2. |
| `Game.NewPlayersNotFinished` | tic-tac-toe.cpp:48 | Players start with status 0, so a game made of new players is not over. |
| `Game.NoEmptyCellEndsGame` | tic-tac-toe.cpp:264-275 | A move on a board with no empty cell returns 1 or 2, never 0. |
| `Game.GameMgr.constructor` | tic-tac-toe.cpp:72 | `GameMgr(size)`: a blank `size` × `size` board, no players, and `numToWin` at its default 2. |
| `Game.GameMgr.WithPlayers` | tic-tac-toe.cpp:73-74 | `GameMgr(size, p)`: a blank board, the players given, and `numToWin` 2. |
| `Game.GameMgr.WithWinLength` | tic-tac-toe.cpp:75-76 | `GameMgr(size, p, n)`: a blank board, the players given, and `numToWin` equal to `n - 1` on an unsigned. |
| `Game.GameMgr.Copy` | tic-tac-toe.cpp:77-80 | The copy constructor copies the board and the players. `numToWin` keeps its default 2. |
| `Game.GameMgr.Assign` | tic-tac-toe.cpp:81-85 | `operator=` copies the board and the players and leaves `numToWin` as it was. |
| `Game.GameMgr.Over` | tic-tac-toe.cpp:88-93 | Returns true exactly when some player's status is 1 or 2. |
| `Game.GameMgr.Turn` | tic-tac-toe.cpp:150-165 | A refused placement changes nothing and keeps the cursor. An accepted one writes the token at (y, x) and sets that player's status to checkWin's verdict on row y, column x; no other player changes. The cursor moves to the next player, wrapping, only on 0. |
| `Game.SetUpGame` | tic-tac-toe.cpp:410 | `GameMgr game;` followed by `game = GameMgr(fieldSize, plyrs, numToWin)` gives the players and a blank board, but `numToWin` stays 2 whatever was asked for. |
| `Game.FourInARowIgnored` | tic-tac-toe.cpp:410 | Asking for four in a row gives a game whose winCount is 2 instead of 3. |
| `Game.GameMgr.AssignAll` | tic-tac-toe.cpp:81-85 | The intended `operator=`: it copies `numToWin` too. |
| `Game.SetUpGameIntended` | tic-tac-toe.cpp:410 | With the intended assignment, the game plays for the length asked: winCount is n - 1. |
| `Scenarios.ColumnOfThreeWins` | tic-tac-toe.cpp:201-218 | Three X in column 0 win for the last X. |
| `Scenarios.QuadrantWinsWithoutLine` | tic-tac-toe.cpp:177-187 | Two X in the square above-left of the move win although no line holds three X. |
| `Scenarios.RowGapsDoNotStop` | tic-tac-toe.cpp:246-263 | X O X O X in a row wins for the middle X. |
| `Scenarios.GroupsDoNotPool` | tic-tac-toe.cpp:199-220 | One X in the diagonal group and one in the column group do not add up to a win. |
| `Scenarios.FullBoardDraws` | tic-tac-toe.cpp:264-275 | A full board with at most one X in every group of the last move is a draw. |
| `Scenarios.ColumnGame` | tic-tac-toe.cpp:150-165 | Five moves on a 3 × 3 board (X (0,0), O (1,1), X (0,1), O (1,0), X (0,2)), after a refused move to (5,5), end with X winning and `over()` true. |

## Left out

- `GameMgr::print` (lines 104-127) and every message that `turn`, `init` and `main` write: console output only.
- The coordinate prompts in `turn` (lines 133-149). `Turn` takes coordinates that have already been read, and models one placement attempt. The source's retry loop is the caller calling `Turn` again while it reports a refusal.
- `init` (lines 277-412) is left out except for its last assignment, which `SetUpGame` models. Reading lines, the regular expressions, `stoi`, and the checks on names and tokens are interactive I/O.
- `main` (lines 414-431) is left out except for its default-constructed game, which `SetUpGame` models. The loop around `turn` and `over` is the caller's.
- `getCurrentPlayer` (line 94): the cursor starts as index 0, which is where `players.begin()` points.
- Player names and `getName`/`getToken`: only the token and the status take part in the game logic.
- `Game.GameMgr.Turn`: it requires `cur < |players|`. With no players, the source dereferences `players.begin() == players.end()`, which is undefined behaviour.
- `Grid.PlaceIsWriteOnce` and `Grid.PlaceUsesOneEmptyCell`: both require a token other than `' '`. `std::cin >> token` skips blanks, so the source never makes such a player.
- `WinCheck.CheckWin`: `int` arithmetic is unbounded in the model, so the source's signed overflows are not modelled. There are two cases. First, `row + y` and the loop counters overflow when winCount is within the board size of `INT_MAX`. Second, when winCount is `INT_MIN` (`numToWin` 2^31, which `GameMgr(size, p, n)` builds from n = 2^31 + 1), the loop bound `-winCount` at lines 177, 178, 201, 221, 234 and 246 overflows. That is undefined behaviour in C++, but the model runs no loop and `WinFacts.NoWinBelowOne` reports no win. The program never builds either game: `init` passes at most 99, and the game always plays with 2.
- `WinCheck.CheckWin`: `inBounds` receives the `unsigned long` field size as an `int`. The model keeps the size exact, which agrees with the source for every board below 2^31 rows.
- Copying `Board` by value is modelled by copying `field` into the receiving `GameMgr`'s own board. No board is ever shared between two games.

## Findings

| source | as written | input that shows it | evidently intended | confidence | as-written member | corrected member |
|---|---|---|---|---|---|---|
| tic-tac-toe.cpp:81-85 | `operator=` copies `board` and `players` but not `numToWin`, so `game = GameMgr(fieldSize, plyrs, numToWin)` at line 410 drops the chosen win length. | A win length of 4 gives winCount 2: the game is won with three in a row. | Copy `numToWin` too, so the game plays for the length that `init` asked for. | high; not executed | `Game.FourInARowIgnored` | `Game.SetUpGameIntended` |
