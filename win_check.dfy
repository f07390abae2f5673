/** checkWin: the evaluation of the cell just played. Four scan groups each
    count the cells holding the player's token within numToWin steps of the
    move; a group whose count reaches numToWin is a win, and otherwise a
    full-board scan tells a draw from a game that goes on. */
module WinCheck {
  import opened Grid
  import opened Players
  import opened Boards

  /** A C++ `unsigned`. */
  type Unsigned = n: int | 0 <= n < 0x1_0000_0000

  /** `int winCount = numToWin;`: the unsigned value read as a 32-bit int. */
  function WinCount(numToWin: Unsigned): (r: int)
    ensures -0x8000_0000 <= r < 0x8000_0000
    ensures (r - numToWin) % 0x1_0000_0000 == 0
  {
    if numToWin < 0x8000_0000 then numToWin else numToWin - 0x1_0000_0000
  }

  /** How one coordinate moves during a scan: the loop variable runs -1, -2, …
      (Minus) or 1, 2, … (Plus), or that coordinate stays at the move (Still). */
  datatype Sign = Minus | Still | Plus

  function Offset(s: Sign, i: int): int {
    match s
    case Minus => -i
    case Still => 0
    case Plus => i
  }

  function Flip(s: Sign): Sign {
    match s
    case Minus => Plus
    case Still => Still
    case Plus => Minus
  }

  /** The cell at (row, col) passes inBounds and holds token t. */
  predicate Holds(g: Cells, row: int, col: int, t: char)
    requires IsSquare(g)
  {
    InBounds(row, col, |g|) && g[row][col] == t
  }

  // ---------------------------------------------------------------------
  // The counts the source's loops accumulate, in the order they visit cells

  /** Step i of a straight scan (the column and row groups). */
  predicate RayHit(g: Cells, row: int, col: int, t: char, dy: Sign, dx: Sign, i: int)
    requires IsSquare(g)
  {
    Holds(g, row + Offset(dy, i), col + Offset(dx, i), t)
  }

  /** Hits among steps 1..k of a straight scan. */
  function RayCount(g: Cells, row: int, col: int, t: char, dy: Sign, dx: Sign, k: int): nat
    requires IsSquare(g)
    decreases k
  {
    if k <= 0 then 0
    else RayCount(g, row, col, t, dy, dx, k - 1) + (if RayHit(g, row, col, t, dy, dx, k) then 1 else 0)
  }

  /** Inner step j of outer step i of a nested (diagonal group) scan. */
  predicate QuadHit(g: Cells, row: int, col: int, t: char, sy: Sign, sx: Sign, i: int, j: int)
    requires IsSquare(g)
  {
    Holds(g, row + Offset(sy, i), col + Offset(sx, j), t)
  }

  /** Hits among inner steps 1..k of outer step i. */
  function StripCount(g: Cells, row: int, col: int, t: char, sy: Sign, sx: Sign, i: int, k: int): nat
    requires IsSquare(g)
    decreases k
  {
    if k <= 0 then 0
    else StripCount(g, row, col, t, sy, sx, i, k - 1) + (if QuadHit(g, row, col, t, sy, sx, i, k) then 1 else 0)
  }

  /** Hits among outer steps 1..m, each with inner steps 1..k. */
  function QuadCount(g: Cells, row: int, col: int, t: char, sy: Sign, sx: Sign, m: int, k: int): nat
    requires IsSquare(g)
    decreases m
  {
    if m <= 0 then 0
    else QuadCount(g, row, col, t, sy, sx, m - 1, k) + StripCount(g, row, col, t, sy, sx, m, k)
  }

  /** The four scan groups, in the order checkWin runs them; totalInRow starts
      from zero in each. */
  datatype Group = Diagonal | Column | AntiDiagonal | Row

  /** The value totalInRow would reach if a group ran to its end. */
  function GroupCount(g: Cells, row: int, col: int, t: char, grp: Group, w: int): nat
    requires IsSquare(g)
  {
    match grp
    case Diagonal => QuadCount(g, row, col, t, Minus, Minus, w, w) + QuadCount(g, row, col, t, Plus, Plus, w, w)
    case Column => RayCount(g, row, col, t, Minus, Still, w) + RayCount(g, row, col, t, Plus, Still, w)
    case AntiDiagonal => QuadCount(g, row, col, t, Minus, Plus, w, w) + QuadCount(g, row, col, t, Plus, Minus, w, w)
    case Row => RayCount(g, row, col, t, Still, Minus, w) + RayCount(g, row, col, t, Still, Plus, w)
  }

  /** A group returns 2: its running count meets winCount at some cell. */
  predicate GroupWins(g: Cells, row: int, col: int, t: char, grp: Group, w: int)
    requires IsSquare(g)
  {
    w >= 1 && GroupCount(g, row, col, t, grp, w) >= w
  }

  /** The value checkWin returns for the move at (row, col) by the player
      with token t, winCount being w. */
  function Evaluate(g: Cells, row: int, col: int, t: char, w: int): (r: int)
    requires IsSquare(g)
    ensures r == WON || r == DRAW || r == ONGOING
    ensures Full(g) ==> r != ONGOING
    ensures r == DRAW ==> Full(g)
  {
    if GroupWins(g, row, col, t, Diagonal, w) || GroupWins(g, row, col, t, Column, w)
       || GroupWins(g, row, col, t, AntiDiagonal, w) || GroupWins(g, row, col, t, Row, w)
    then WON
    else if Full(g) then DRAW
    else ONGOING
  }

  // ---------------------------------------------------------------------
  // checkWin itself

  lemma {:induction false} StripCountMono(g: Cells, row: int, col: int, t: char, sy: Sign, sx: Sign, i: int, j: int, k: int)
    requires IsSquare(g) && j <= k
    ensures StripCount(g, row, col, t, sy, sx, i, j) <= StripCount(g, row, col, t, sy, sx, i, k)
    decreases k - j
  {
    if j < k {
      StripCountMono(g, row, col, t, sy, sx, i, j, k - 1);
    }
  }

  lemma {:induction false} QuadCountMono(g: Cells, row: int, col: int, t: char, sy: Sign, sx: Sign, m: int, n: int, k: int)
    requires IsSquare(g) && m <= n
    ensures QuadCount(g, row, col, t, sy, sx, m, k) <= QuadCount(g, row, col, t, sy, sx, n, k)
    decreases n - m
  {
    if m < n {
      QuadCountMono(g, row, col, t, sy, sx, m, n - 1, k);
    }
  }

  lemma {:induction false} RayCountMono(g: Cells, row: int, col: int, t: char, dy: Sign, dx: Sign, j: int, k: int)
    requires IsSquare(g) && j <= k
    ensures RayCount(g, row, col, t, dy, dx, j) <= RayCount(g, row, col, t, dy, dx, k)
    decreases k - j
  {
    if j < k {
      RayCountMono(g, row, col, t, dy, dx, j, k - 1);
    }
  }

  /** One half of a diagonal group: the nested loops over outer steps
      1..w and inner steps 1..w, adding each hit to total and stopping as soon
      as total equals w. */
  method ScanQuadrant(b: Board, row: int, col: int, t: char, w: int, sy: Sign, sx: Sign, total0: nat)
    returns (total: nat, hit: bool)
    requires b.Valid()
    requires w >= 1 ==> total0 < w
    ensures hit <==> w >= 1 && total0 + QuadCount(b.field, row, col, t, sy, sx, w, w) >= w
    ensures !hit ==> total == total0 + QuadCount(b.field, row, col, t, sy, sx, w, w)
  {
    var g := b.field;
    var fieldSize := |g|;
    total := total0;
    var i := 1;
    while i <= w
      invariant 1 <= i <= Iterations(w) + 1
      invariant total == total0 + QuadCount(g, row, col, t, sy, sx, i - 1, w)
      invariant w >= 1 ==> total < w
    {
      var y := Offset(sy, i);
      var j := 1;
      while j <= w
        invariant 1 <= j <= w + 1
        invariant total == total0 + QuadCount(g, row, col, t, sy, sx, i - 1, w) + StripCount(g, row, col, t, sy, sx, i, j - 1)
        invariant total < w
      {
        var x := Offset(sx, j);
        if InBounds(row + y, col + x, fieldSize) && g[row + y][col + x] == t {
          total := total + 1;
          if total == w {
            StripCountMono(g, row, col, t, sy, sx, i, j, w);
            QuadCountMono(g, row, col, t, sy, sx, i, w, w);
            return total, true;
          }
        }
        j := j + 1;
      }
      i := i + 1;
    }
    hit := false;
  }

  /** One half of the column or row group: a single loop over steps 1..w. */
  method ScanRay(b: Board, row: int, col: int, t: char, w: int, dy: Sign, dx: Sign, total0: nat)
    returns (total: nat, hit: bool)
    requires b.Valid()
    requires w >= 1 ==> total0 < w
    ensures hit <==> w >= 1 && total0 + RayCount(b.field, row, col, t, dy, dx, w) >= w
    ensures !hit ==> total == total0 + RayCount(b.field, row, col, t, dy, dx, w)
  {
    var g := b.field;
    var fieldSize := |g|;
    total := total0;
    var i := 1;
    while i <= w
      invariant 1 <= i <= Iterations(w) + 1
      invariant total == total0 + RayCount(g, row, col, t, dy, dx, i - 1)
      invariant w >= 1 ==> total < w
    {
      var y, x := Offset(dy, i), Offset(dx, i);
      if InBounds(row + y, col + x, fieldSize) && g[row + y][col + x] == t {
        total := total + 1;
        if total == w {
          RayCountMono(g, row, col, t, dy, dx, i, w);
          return total, true;
        }
      }
      i := i + 1;
    }
    hit := false;
  }

  /** checkWin(row, col, p, b, numToWin): reads the board only, through
      cells that passed inBounds, and returns what Evaluate says. */
  method CheckWin(row: int, col: int, p: Player, b: Board, numToWin: Unsigned) returns (r: int)
    requires b.Valid()
    ensures r == Evaluate(b.field, row, col, p.token, WinCount(numToWin))
  {
    var totalInRow: nat := 0;
    var hit: bool;
    var winCount := WinCount(numToWin);
    ghost var g := b.field;
    // top-left to bottom-right: the two quadrant squares
    totalInRow, hit := ScanQuadrant(b, row, col, p.token, winCount, Minus, Minus, totalInRow);
    if hit { return WON; }
    totalInRow, hit := ScanQuadrant(b, row, col, p.token, winCount, Plus, Plus, totalInRow);
    if hit { return WON; }
    assert !GroupWins(g, row, col, p.token, Diagonal, winCount);
    // column
    totalInRow := 0;
    totalInRow, hit := ScanRay(b, row, col, p.token, winCount, Minus, Still, totalInRow);
    if hit { return WON; }
    totalInRow, hit := ScanRay(b, row, col, p.token, winCount, Plus, Still, totalInRow);
    if hit { return WON; }
    assert !GroupWins(g, row, col, p.token, Column, winCount);
    // top-right to bottom-left: the other two quadrant squares
    totalInRow := 0;
    totalInRow, hit := ScanQuadrant(b, row, col, p.token, winCount, Minus, Plus, totalInRow);
    if hit { return WON; }
    totalInRow, hit := ScanQuadrant(b, row, col, p.token, winCount, Plus, Minus, totalInRow);
    if hit { return WON; }
    assert !GroupWins(g, row, col, p.token, AntiDiagonal, winCount);
    // row
    totalInRow := 0;
    totalInRow, hit := ScanRay(b, row, col, p.token, winCount, Still, Minus, totalInRow);
    if hit { return WON; }
    totalInRow, hit := ScanRay(b, row, col, p.token, winCount, Still, Plus, totalInRow);
    if hit { return WON; }
    assert !GroupWins(g, row, col, p.token, Row, winCount);
    // no group reached winCount: draw if no cell is empty
    var fieldSize := |b.field|;
    var isDraw := true;
    var y := 0;
    while y < fieldSize
      invariant 0 <= y <= fieldSize
      invariant isDraw <==> forall r, c :: 0 <= r < y && 0 <= c < fieldSize ==> g[r][c] != Empty
    {
      var x := 0;
      while x < fieldSize
        invariant 0 <= x <= fieldSize
        invariant isDraw <==> (forall r, c :: 0 <= r < y && 0 <= c < fieldSize ==> g[r][c] != Empty)
                              && forall c :: 0 <= c < x ==> g[y][c] != Empty
      {
        if b.field[y][x] == Empty {
          isDraw := false;
        }
        x := x + 1;
      }
      y := y + 1;
    }
    if isDraw {
      return DRAW;
    }
    return ONGOING;
  }
}
