/** What checkWin's counts mean, stated without loops or recursion: which
    cells each scan group visits, that the placed cell is never among them,
    that a winCount below one never wins, and that the verdict does not change
    when the board and the move are turned half a circle. */
module WinFacts {
  import opened Grid
  import opened Players
  import opened WinCheck

  // ---------------------------------------------------------------------
  // The visited cells, as offsets (di, dj) from the move

  /** Offset d is one of the steps a scan takes along one coordinate: -m..-1
      for Minus, 1..m for Plus, just 0 for Still. */
  predicate Along(s: Sign, d: int, m: int) {
    match s
    case Minus => -m <= d <= -1
    case Still => d == 0
    case Plus => 1 <= d <= m
  }

  /** Offsets (di, dj) with di taken along sy within m steps and dj along sx
      within k steps, whose cell holds t. */
  ghost function Window(g: Cells, row: int, col: int, t: char, sy: Sign, sx: Sign, m: int, k: int): set<(int, int)>
    requires IsSquare(g)
  {
    set di, dj | -m <= di <= m && -k <= dj <= k && Along(sy, di, m) && Along(sx, dj, k)
                 && Holds(g, row + di, col + dj, t) :: (di, dj)
  }

  /** The offsets each scan group visits. The diagonal groups cover two whole
      w-by-w squares, not only the diagonal line; no group contains (0, 0). */
  predicate InGroup(grp: Group, di: int, dj: int, w: int) {
    match grp
    case Diagonal => (-w <= di <= -1 && -w <= dj <= -1) || (1 <= di <= w && 1 <= dj <= w)
    case Column => dj == 0 && (-w <= di <= -1 || 1 <= di <= w)
    case AntiDiagonal => (-w <= di <= -1 && 1 <= dj <= w) || (1 <= di <= w && -w <= dj <= -1)
    case Row => di == 0 && (-w <= dj <= -1 || 1 <= dj <= w)
  }

  /** The visited offsets of a group whose cell holds t. */
  ghost function GroupHits(g: Cells, row: int, col: int, t: char, grp: Group, w: int): set<(int, int)>
    requires IsSquare(g)
  {
    set di, dj | -w <= di <= w && -w <= dj <= w && InGroup(grp, di, dj, w)
                 && Holds(g, row + di, col + dj, t) :: (di, dj)
  }

  // ---------------------------------------------------------------------
  // Counting the loops' hits is counting the visited cells

  /** The hits of outer step i of a nested scan, as offsets. */
  ghost function StripHits(g: Cells, row: int, col: int, t: char, sy: Sign, sx: Sign, i: int, k: int): set<(int, int)>
    requires IsSquare(g)
  {
    set dj | -k <= dj <= k && Along(sx, dj, k) && Holds(g, row + Offset(sy, i), col + dj, t) :: (Offset(sy, i), dj)
  }

  lemma WindowMember(g: Cells, row: int, col: int, t: char, sy: Sign, sx: Sign, m: int, k: int, p: (int, int))
    requires IsSquare(g)
    ensures p in Window(g, row, col, t, sy, sx, m, k)
            <==> -m <= p.0 <= m && -k <= p.1 <= k && Along(sy, p.0, m) && Along(sx, p.1, k)
                 && Holds(g, row + p.0, col + p.1, t)
  {
  }

  lemma StripMember(g: Cells, row: int, col: int, t: char, sy: Sign, sx: Sign, i: int, k: int, p: (int, int))
    requires IsSquare(g)
    ensures p in StripHits(g, row, col, t, sy, sx, i, k)
            <==> p.0 == Offset(sy, i) && -k <= p.1 <= k && Along(sx, p.1, k) && Holds(g, row + p.0, col + p.1, t)
  {
  }

  lemma GroupMember(g: Cells, row: int, col: int, t: char, grp: Group, w: int, p: (int, int))
    requires IsSquare(g)
    ensures p in GroupHits(g, row, col, t, grp, w)
            <==> -w <= p.0 <= w && -w <= p.1 <= w && InGroup(grp, p.0, p.1, w) && Holds(g, row + p.0, col + p.1, t)
  {
  }

  /** Taking k steps along a moving sign is taking k - 1 steps and then step k. */
  lemma AlongStep(s: Sign, d: int, k: int)
    requires s != Still && k >= 1
    ensures Along(s, d, k) <==> Along(s, d, k - 1) || d == Offset(s, k)
    ensures Along(s, d, k - 1) ==> d != Offset(s, k) && -(k - 1) <= d <= k - 1
    ensures Along(s, d, k) ==> -k <= d <= k
  {
  }

  /** The hits of inner steps 1..k are those of steps 1..k-1 and perhaps step k. */
  lemma StripHitsStep(g: Cells, row: int, col: int, t: char, sy: Sign, sx: Sign, i: int, k: int)
    requires IsSquare(g) && sx != Still && k >= 1
    ensures var e := (Offset(sy, i), Offset(sx, k));
            && e !in StripHits(g, row, col, t, sy, sx, i, k - 1)
            && StripHits(g, row, col, t, sy, sx, i, k)
               == StripHits(g, row, col, t, sy, sx, i, k - 1) + (if QuadHit(g, row, col, t, sy, sx, i, k) then {e} else {})
  {
    var here := StripHits(g, row, col, t, sy, sx, i, k);
    var before := StripHits(g, row, col, t, sy, sx, i, k - 1);
    var e := (Offset(sy, i), Offset(sx, k));
    var added := if QuadHit(g, row, col, t, sy, sx, i, k) then {e} else {};
    forall p ensures p in here <==> p in before + added {
      StripMember(g, row, col, t, sy, sx, i, k, p);
      StripMember(g, row, col, t, sy, sx, i, k - 1, p);
      AlongStep(sx, p.1, k);
    }
    StripMember(g, row, col, t, sy, sx, i, k - 1, e);
    AlongStep(sx, e.1, k);
  }

  lemma StripHitsNone(g: Cells, row: int, col: int, t: char, sy: Sign, sx: Sign, i: int, k: int)
    requires IsSquare(g) && sx != Still && k <= 0
    ensures StripHits(g, row, col, t, sy, sx, i, k) == {}
  {
    forall p ensures p !in StripHits(g, row, col, t, sy, sx, i, k) {
      StripMember(g, row, col, t, sy, sx, i, k, p);
    }
  }

  lemma {:induction false} StripCountIsHits(g: Cells, row: int, col: int, t: char, sy: Sign, sx: Sign, i: int, k: int)
    requires IsSquare(g) && sx != Still
    ensures StripCount(g, row, col, t, sy, sx, i, k) == |StripHits(g, row, col, t, sy, sx, i, k)|
    decreases k
  {
    if k <= 0 {
      StripHitsNone(g, row, col, t, sy, sx, i, k);
    } else {
      StripCountIsHits(g, row, col, t, sy, sx, i, k - 1);
      StripHitsStep(g, row, col, t, sy, sx, i, k);
    }
  }

  /** The window of outer steps 1..m is that of steps 1..m-1 plus the strip
      of step m, and the two share no offset. */
  lemma WindowStep(g: Cells, row: int, col: int, t: char, sy: Sign, sx: Sign, m: int, k: int)
    requires IsSquare(g) && sy != Still && m >= 1
    ensures Window(g, row, col, t, sy, sx, m, k)
            == Window(g, row, col, t, sy, sx, m - 1, k) + StripHits(g, row, col, t, sy, sx, m, k)
    ensures Window(g, row, col, t, sy, sx, m - 1, k) * StripHits(g, row, col, t, sy, sx, m, k) == {}
  {
    var here := Window(g, row, col, t, sy, sx, m, k);
    var before := Window(g, row, col, t, sy, sx, m - 1, k);
    var strip := StripHits(g, row, col, t, sy, sx, m, k);
    forall p ensures (p in here <==> p in before + strip) && !(p in before && p in strip) {
      WindowMember(g, row, col, t, sy, sx, m, k, p);
      WindowMember(g, row, col, t, sy, sx, m - 1, k, p);
      StripMember(g, row, col, t, sy, sx, m, k, p);
      AlongStep(sy, p.0, m);
    }
  }

  lemma WindowNone(g: Cells, row: int, col: int, t: char, sy: Sign, sx: Sign, m: int, k: int)
    requires IsSquare(g) && sy != Still && m <= 0
    ensures Window(g, row, col, t, sy, sx, m, k) == {}
  {
    forall p ensures p !in Window(g, row, col, t, sy, sx, m, k) {
      WindowMember(g, row, col, t, sy, sx, m, k, p);
    }
  }

  lemma {:induction false} QuadCountIsWindow(g: Cells, row: int, col: int, t: char, sy: Sign, sx: Sign, m: int, k: int)
    requires IsSquare(g) && sy != Still && sx != Still
    ensures QuadCount(g, row, col, t, sy, sx, m, k) == |Window(g, row, col, t, sy, sx, m, k)|
    decreases m
  {
    if m <= 0 {
      WindowNone(g, row, col, t, sy, sx, m, k);
    } else {
      QuadCountIsWindow(g, row, col, t, sy, sx, m - 1, k);
      StripCountIsHits(g, row, col, t, sy, sx, m, k);
      WindowStep(g, row, col, t, sy, sx, m, k);
    }
  }

  /** The window of a straight scan over steps 1..k is that over steps
      1..k-1 and perhaps step k. */
  lemma RayWindowStep(g: Cells, row: int, col: int, t: char, dy: Sign, dx: Sign, k: int)
    requires IsSquare(g) && (dy == Still) != (dx == Still) && k >= 1
    ensures var e := (Offset(dy, k), Offset(dx, k));
            && e !in Window(g, row, col, t, dy, dx, k - 1, k - 1)
            && Window(g, row, col, t, dy, dx, k, k)
               == Window(g, row, col, t, dy, dx, k - 1, k - 1) + (if RayHit(g, row, col, t, dy, dx, k) then {e} else {})
  {
    var here := Window(g, row, col, t, dy, dx, k, k);
    var before := Window(g, row, col, t, dy, dx, k - 1, k - 1);
    var e := (Offset(dy, k), Offset(dx, k));
    var added := if RayHit(g, row, col, t, dy, dx, k) then {e} else {};
    forall p ensures p in here <==> p in before + added {
      WindowMember(g, row, col, t, dy, dx, k, k, p);
      WindowMember(g, row, col, t, dy, dx, k - 1, k - 1, p);
      if dy == Still { AlongStep(dx, p.1, k); } else { AlongStep(dy, p.0, k); }
    }
    WindowMember(g, row, col, t, dy, dx, k - 1, k - 1, e);
    if dy == Still { AlongStep(dx, e.1, k); } else { AlongStep(dy, e.0, k); }
  }

  lemma {:induction false} RayCountIsWindow(g: Cells, row: int, col: int, t: char, dy: Sign, dx: Sign, k: int)
    requires IsSquare(g) && (dy == Still) != (dx == Still)
    ensures RayCount(g, row, col, t, dy, dx, k) == |Window(g, row, col, t, dy, dx, k, k)|
    decreases k
  {
    if k <= 0 {
      forall p ensures p !in Window(g, row, col, t, dy, dx, k, k) {
        WindowMember(g, row, col, t, dy, dx, k, k, p);
      }
      assert Window(g, row, col, t, dy, dx, k, k) == {};
    } else {
      RayCountIsWindow(g, row, col, t, dy, dx, k - 1);
      RayWindowStep(g, row, col, t, dy, dx, k);
    }
  }

  /** A group's visited hits are the windows of its two halves, which share no
      offset. */
  lemma GroupSplits(g: Cells, row: int, col: int, t: char, grp: Group, w: int,
                    sy1: Sign, sx1: Sign, sy2: Sign, sx2: Sign)
    requires IsSquare(g)
    requires match grp
             case Diagonal => (sy1, sx1, sy2, sx2) == (Minus, Minus, Plus, Plus)
             case Column => (sy1, sx1, sy2, sx2) == (Minus, Still, Plus, Still)
             case AntiDiagonal => (sy1, sx1, sy2, sx2) == (Minus, Plus, Plus, Minus)
             case Row => (sy1, sx1, sy2, sx2) == (Still, Minus, Still, Plus)
    ensures GroupHits(g, row, col, t, grp, w)
            == Window(g, row, col, t, sy1, sx1, w, w) + Window(g, row, col, t, sy2, sx2, w, w)
    ensures Window(g, row, col, t, sy1, sx1, w, w) * Window(g, row, col, t, sy2, sx2, w, w) == {}
  {
    var hits := GroupHits(g, row, col, t, grp, w);
    var a, b := Window(g, row, col, t, sy1, sx1, w, w), Window(g, row, col, t, sy2, sx2, w, w);
    forall p ensures (p in hits <==> p in a + b) && !(p in a && p in b) {
      GroupMember(g, row, col, t, grp, w, p);
      WindowMember(g, row, col, t, sy1, sx1, w, w, p);
      WindowMember(g, row, col, t, sy2, sx2, w, w, p);
    }
  }

  /** The value a group's totalInRow would reach is the number of cells it
      visits that hold the player's token. */
  lemma GroupCountIsHits(g: Cells, row: int, col: int, t: char, grp: Group, w: int)
    requires IsSquare(g)
    ensures GroupCount(g, row, col, t, grp, w) == |GroupHits(g, row, col, t, grp, w)|
  {
    match grp
    case Diagonal =>
      QuadCountIsWindow(g, row, col, t, Minus, Minus, w, w);
      QuadCountIsWindow(g, row, col, t, Plus, Plus, w, w);
      GroupSplits(g, row, col, t, grp, w, Minus, Minus, Plus, Plus);
    case Column =>
      RayCountIsWindow(g, row, col, t, Minus, Still, w);
      RayCountIsWindow(g, row, col, t, Plus, Still, w);
      GroupSplits(g, row, col, t, grp, w, Minus, Still, Plus, Still);
    case AntiDiagonal =>
      QuadCountIsWindow(g, row, col, t, Minus, Plus, w, w);
      QuadCountIsWindow(g, row, col, t, Plus, Minus, w, w);
      GroupSplits(g, row, col, t, grp, w, Minus, Plus, Plus, Minus);
    case Row =>
      RayCountIsWindow(g, row, col, t, Still, Minus, w);
      RayCountIsWindow(g, row, col, t, Still, Plus, w);
      GroupSplits(g, row, col, t, grp, w, Still, Minus, Still, Plus);
  }

  /** checkWin returns 2 exactly when winCount is at least one and some
      group visits at least winCount cells holding the player's token. */
  lemma EvaluateWonIff(g: Cells, row: int, col: int, t: char, w: int)
    requires IsSquare(g)
    ensures Evaluate(g, row, col, t, w) == WON
            <==> w >= 1 && exists grp :: |GroupHits(g, row, col, t, grp, w)| >= w
  {
    GroupCountIsHits(g, row, col, t, Diagonal, w);
    GroupCountIsHits(g, row, col, t, Column, w);
    GroupCountIsHits(g, row, col, t, AntiDiagonal, w);
    GroupCountIsHits(g, row, col, t, Row, w);
    if w >= 1 && exists grp :: |GroupHits(g, row, col, t, grp, w)| >= w {
      var grp :| |GroupHits(g, row, col, t, grp, w)| >= w;
      assert GroupWins(g, row, col, t, grp, w);
    }
  }

  /** A winCount below one never wins: every scan loop is empty. */
  lemma NoWinBelowOne(g: Cells, row: int, col: int, t: char, w: int)
    requires IsSquare(g) && w <= 0
    ensures Evaluate(g, row, col, t, w) != WON
    ensures Evaluate(g, row, col, t, w) == DRAW <==> Full(g)
  {
  }

  // ---------------------------------------------------------------------
  // A win needs winCount other tokens on the board

  /** The cells other than the move's own that hold t. */
  ghost function Marks(g: Cells, row: int, col: int, t: char): set<(int, int)>
    requires IsSquare(g)
  {
    set r, c | 0 <= r < |g| && 0 <= c < |g| && g[r][c] == t && (r, c) != (row, col) :: (r, c)
  }

  /** The offsets of s moved by (a, b). */
  function Shift(s: set<(int, int)>, a: int, b: int): set<(int, int)> {
    set p | p in s :: (p.0 + a, p.1 + b)
  }

  lemma {:induction false} ShiftKeepsSize(s: set<(int, int)>, a: int, b: int)
    ensures |Shift(s, a, b)| == |s|
    decreases |s|
  {
    if s != {} {
      var p :| p in s;
      var rest := s - {p};
      ShiftKeepsSize(rest, a, b);
      assert Shift(s, a, b) == Shift(rest, a, b) + {(p.0 + a, p.1 + b)};
      assert (p.0 + a, p.1 + b) !in Shift(rest, a, b);
    }
  }

  lemma SubsetSize(a: set<(int, int)>, b: set<(int, int)>)
    requires a <= b
    ensures |a| <= |b|
  {
    assert b == a + (b - a);
    assert a * (b - a) == {};
  }

  /** Every cell a group counts is a cell other than the move's holding t, so
      no group counts more than there are such cells. */
  lemma GroupHitsWithinMarks(g: Cells, row: int, col: int, t: char, grp: Group, w: int)
    requires IsSquare(g)
    ensures |GroupHits(g, row, col, t, grp, w)| <= |Marks(g, row, col, t)|
  {
    var hits := GroupHits(g, row, col, t, grp, w);
    forall p | p in Shift(hits, row, col) ensures p in Marks(g, row, col, t) {
      var q :| q in hits && p == (q.0 + row, q.1 + col);
      GroupMember(g, row, col, t, grp, w, q);
    }
    ShiftKeepsSize(hits, row, col);
    SubsetSize(Shift(hits, row, col), Marks(g, row, col, t));
  }

  /** A move wins only when the player already has at least winCount other
      tokens on the board. */
  lemma WinNeedsMarks(g: Cells, row: int, col: int, t: char, w: int)
    requires IsSquare(g)
    ensures Evaluate(g, row, col, t, w) == WON ==> w <= |Marks(g, row, col, t)|
  {
    EvaluateWonIff(g, row, col, t, w);
    if Evaluate(g, row, col, t, w) == WON {
      var grp :| |GroupHits(g, row, col, t, grp, w)| >= w;
      GroupHitsWithinMarks(g, row, col, t, grp, w);
    }
  }

  // ---------------------------------------------------------------------
  // The placed cell is not counted

  /** Whatever the cell at the move holds, every group's count is the same:
      the placed token is not one of the cells a group visits. */
  lemma PlacedCellNotCounted(g: Cells, row: int, col: int, t: char, c: char, grp: Group, w: int)
    requires IsSquare(g) && 0 <= row < |g| && 0 <= col < |g|
    ensures IsSquare(g[row := g[row][col := c]])
    ensures GroupCount(g[row := g[row][col := c]], row, col, t, grp, w) == GroupCount(g, row, col, t, grp, w)
  {
    var g' := g[row := g[row][col := c]];
    assert IsSquare(g');
    forall p ensures p in GroupHits(g', row, col, t, grp, w) <==> p in GroupHits(g, row, col, t, grp, w) {
      GroupMember(g', row, col, t, grp, w, p);
      GroupMember(g, row, col, t, grp, w, p);
    }
    assert GroupHits(g', row, col, t, grp, w) == GroupHits(g, row, col, t, grp, w);
    GroupCountIsHits(g', row, col, t, grp, w);
    GroupCountIsHits(g, row, col, t, grp, w);
  }

  /** So whether a move wins does not depend on what was written at the move. */
  lemma WinIgnoresPlacedCell(g: Cells, row: int, col: int, t: char, c: char, w: int)
    requires IsSquare(g) && 0 <= row < |g| && 0 <= col < |g|
    ensures IsSquare(g[row := g[row][col := c]])
    ensures Evaluate(g[row := g[row][col := c]], row, col, t, w) == WON <==> Evaluate(g, row, col, t, w) == WON
  {
    PlacedCellNotCounted(g, row, col, t, c, Diagonal, w);
    PlacedCellNotCounted(g, row, col, t, c, Column, w);
    PlacedCellNotCounted(g, row, col, t, c, AntiDiagonal, w);
    PlacedCellNotCounted(g, row, col, t, c, Row, w);
  }

  // ---------------------------------------------------------------------
  // Half-turn symmetry

  /** The board turned by 180 degrees: cell (r, c) moves to (n-1-r, n-1-c). */
  function Rotate(g: Cells): (r: Cells)
    requires IsSquare(g)
    ensures IsSquare(r) && |r| == |g|
    ensures forall i, j :: 0 <= i < |g| && 0 <= j < |g| ==> r[i][j] == g[|g| - 1 - i][|g| - 1 - j]
  {
    var n := |g|;
    seq(n, i requires 0 <= i < n => seq(n, j requires 0 <= j < n => g[n - 1 - i][n - 1 - j]))
  }

  lemma HoldsRotated(g: Cells, row: int, col: int, t: char)
    requires IsSquare(g)
    ensures Holds(Rotate(g), |g| - 1 - row, |g| - 1 - col, t) == Holds(g, row, col, t)
  {
  }

  lemma {:induction false} RayCountRotated(g: Cells, row: int, col: int, t: char, dy: Sign, dx: Sign, k: int)
    requires IsSquare(g)
    ensures RayCount(Rotate(g), |g| - 1 - row, |g| - 1 - col, t, dy, dx, k)
            == RayCount(g, row, col, t, Flip(dy), Flip(dx), k)
    decreases k
  {
    if k > 0 {
      RayCountRotated(g, row, col, t, dy, dx, k - 1);
      HoldsRotated(g, row + Offset(Flip(dy), k), col + Offset(Flip(dx), k), t);
    }
  }

  lemma {:induction false} StripCountRotated(g: Cells, row: int, col: int, t: char, sy: Sign, sx: Sign, i: int, k: int)
    requires IsSquare(g)
    ensures StripCount(Rotate(g), |g| - 1 - row, |g| - 1 - col, t, sy, sx, i, k)
            == StripCount(g, row, col, t, Flip(sy), Flip(sx), i, k)
    decreases k
  {
    if k > 0 {
      StripCountRotated(g, row, col, t, sy, sx, i, k - 1);
      HoldsRotated(g, row + Offset(Flip(sy), i), col + Offset(Flip(sx), k), t);
    }
  }

  lemma {:induction false} QuadCountRotated(g: Cells, row: int, col: int, t: char, sy: Sign, sx: Sign, m: int, k: int)
    requires IsSquare(g)
    ensures QuadCount(Rotate(g), |g| - 1 - row, |g| - 1 - col, t, sy, sx, m, k)
            == QuadCount(g, row, col, t, Flip(sy), Flip(sx), m, k)
    decreases m
  {
    if m > 0 {
      QuadCountRotated(g, row, col, t, sy, sx, m - 1, k);
      StripCountRotated(g, row, col, t, sy, sx, m, k);
    }
  }

  lemma FullRotated(g: Cells)
    requires IsSquare(g)
    ensures Full(Rotate(g)) <==> Full(g)
  {
    var n := |g|;
    if Full(Rotate(g)) {
      forall r, c | 0 <= r < n && 0 <= c < |g[r]| ensures g[r][c] != Empty {
        assert Rotate(g)[n - 1 - r][n - 1 - c] == g[r][c];
      }
    }
  }

  /** Turning the board and the move by 180 degrees leaves checkWin's
      verdict unchanged: each group's two halves trade places. */
  lemma EvaluateRotated(g: Cells, row: int, col: int, t: char, w: int)
    requires IsSquare(g)
    ensures Evaluate(Rotate(g), |g| - 1 - row, |g| - 1 - col, t, w) == Evaluate(g, row, col, t, w)
  {
    QuadCountRotated(g, row, col, t, Minus, Minus, w, w);
    QuadCountRotated(g, row, col, t, Plus, Plus, w, w);
    QuadCountRotated(g, row, col, t, Minus, Plus, w, w);
    QuadCountRotated(g, row, col, t, Plus, Minus, w, w);
    RayCountRotated(g, row, col, t, Minus, Still, w);
    RayCountRotated(g, row, col, t, Plus, Still, w);
    RayCountRotated(g, row, col, t, Still, Minus, w);
    RayCountRotated(g, row, col, t, Still, Plus, w);
    FullRotated(g);
  }
}
