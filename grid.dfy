/** The playing field as a value: a square grid of marks, the bounds test the
    win check uses, and the write-once placement that Board::setChar performs. */
module Grid {

  /** The mark of a cell nobody has played yet (Board::emptyCellChar). */
  const Empty: char := ' '

  /** field[y][x]: rows indexed by y, columns by x. */
  type Cells = seq<seq<char>>

  /** Every row is as long as there are rows: the shape Board::initBoard builds
      and every later placement keeps. */
  predicate IsSquare(g: Cells) {
    forall r :: 0 <= r < |g| ==> |g[r]| == |g|
  }

  /** The source's free function inBounds. */
  predicate InBounds(row: int, col: int, maxSize: int) {
    (0 <= row && row < maxSize) && (0 <= col && col < maxSize)
  }

  /** On a square grid the bounds test admits exactly the indices of a cell,
      so every read guarded by it stays inside the grid. */
  lemma InBoundsIsCell(g: Cells, row: int, col: int)
    requires IsSquare(g)
    ensures InBounds(row, col, |g|) <==> 0 <= row < |g| && 0 <= col < |g[row]|
  {
  }

  /** No cell is empty any more. */
  predicate Full(g: Cells) {
    forall r, c :: 0 <= r < |g| && 0 <= c < |g[r]| ==> g[r][c] != Empty
  }

  /** A placement at column x, row y is accepted: both coordinates are on the
      board and the cell there is still empty. */
  predicate CanPlace(g: Cells, x: int, y: int)
    requires IsSquare(g)
  {
    0 <= y < |g| && 0 <= x < |g| && g[y][x] == Empty
  }

  /** The grid after token t is written at column x, row y. */
  function Place(g: Cells, x: int, y: int, t: char): (r: Cells)
    requires IsSquare(g) && CanPlace(g, x, y)
    ensures IsSquare(r) && |r| == |g|
    ensures r[y][x] == t
    ensures forall y', x' :: 0 <= y' < |g| && 0 <= x' < |g| && (y', x') != (y, x) ==> r[y'][x'] == g[y'][x']
  {
    g[y := g[y][x := t]]
  }

  /** A cell is written once: after a non-blank token lands on it, the same
      placement is refused. */
  lemma PlaceIsWriteOnce(g: Cells, x: int, y: int, t: char)
    requires IsSquare(g) && CanPlace(g, x, y) && t != Empty
    ensures !CanPlace(Place(g, x, y, t), x, y)
  {
  }

  /** Number of empty cells in one row. */
  function RowEmpties(row: seq<char>): nat {
    if row == [] then 0 else (if row[0] == Empty then 1 else 0) + RowEmpties(row[1..])
  }

  /** Number of empty cells on the whole grid. */
  function EmptyCount(g: Cells): nat {
    if g == [] then 0 else RowEmpties(g[0]) + EmptyCount(g[1..])
  }

  lemma {:induction false} RowEmptiesZero(row: seq<char>)
    ensures RowEmpties(row) == 0 <==> forall c :: 0 <= c < |row| ==> row[c] != Empty
  {
    if row != [] {
      RowEmptiesZero(row[1..]);
      assert forall c :: 1 <= c < |row| ==> row[c] == row[1..][c - 1];
    }
  }

  /** The grid has no empty cell left exactly when the empty count is zero. */
  lemma {:induction false} EmptyCountZeroIffFull(g: Cells)
    ensures EmptyCount(g) == 0 <==> Full(g)
  {
    if g != [] {
      EmptyCountZeroIffFull(g[1..]);
      RowEmptiesZero(g[0]);
      assert forall r :: 1 <= r < |g| ==> g[r] == g[1..][r - 1];
    }
  }

  lemma {:induction false} RowEmptiesWrite(row: seq<char>, x: int, t: char)
    requires 0 <= x < |row| && row[x] == Empty && t != Empty
    ensures RowEmpties(row[x := t]) == RowEmpties(row) - 1
  {
    if x > 0 {
      assert row[x := t][1..] == row[1..][x - 1 := t];
      RowEmptiesWrite(row[1..], x - 1, t);
    } else {
      assert row[x := t][1..] == row[1..];
    }
  }

  lemma {:induction false} EmptyCountWrite(g: Cells, x: int, y: int, t: char)
    requires 0 <= y < |g| && 0 <= x < |g[y]| && g[y][x] == Empty && t != Empty
    ensures EmptyCount(g[y := g[y][x := t]]) == EmptyCount(g) - 1
  {
    if y > 0 {
      assert g[y := g[y][x := t]][1..] == g[1..][y - 1 := g[1..][y - 1][x := t]];
      EmptyCountWrite(g[1..], x, y - 1, t);
    } else {
      assert g[y := g[y][x := t]][1..] == g[1..];
      RowEmptiesWrite(g[0], x, t);
    }
  }

  /** Every accepted placement of a real token uses up exactly one empty cell;
      with EmptyCountAtMost, at most size * size placements succeed on a board. */
  lemma PlaceUsesOneEmptyCell(g: Cells, x: int, y: int, t: char)
    requires IsSquare(g) && CanPlace(g, x, y) && t != Empty
    ensures EmptyCount(Place(g, x, y, t)) == EmptyCount(g) - 1
  {
    EmptyCountWrite(g, x, y, t);
  }

  lemma {:induction false} RowEmptiesAtMost(row: seq<char>)
    ensures RowEmpties(row) <= |row|
  {
    if row != [] {
      RowEmptiesAtMost(row[1..]);
    }
  }

  lemma {:induction false} EmptyCountWidth(g: Cells, n: nat)
    requires forall r :: 0 <= r < |g| ==> |g[r]| == n
    ensures EmptyCount(g) <= |g| * n
  {
    if g != [] {
      RowEmptiesAtMost(g[0]);
      EmptyCountWidth(g[1..], n);
    }
  }

  /** A size-by-size grid has at most size * size empty cells. */
  lemma EmptyCountAtMost(g: Cells)
    requires IsSquare(g)
    ensures EmptyCount(g) <= |g| * |g|
  {
    EmptyCountWidth(g, |g|);
  }
}
