/** The Board class: a size-by-size grid of chars that initBoard fills with
    empty cells and setChar writes once per cell. */
module Boards {
  import opened Grid
  import opened Players

  /** How many times `for (int i = 0; i < n; ++i)` runs. */
  function Iterations(n: int): nat {
    if n < 0 then 0 else n
  }

  class Board {
    var field: Cells

    ghost predicate Valid()
      reads this
    {
      IsSquare(field)
    }

    /** Board(size): an empty field grown by initBoard. */
    constructor (size: int)
      ensures Valid() && |field| == Iterations(size)
      ensures forall r, c :: 0 <= r < |field| && 0 <= c < |field[r]| ==> field[r][c] == Empty
    {
      field := [];
      new;
      InitBoard(size);
    }

    /** Appends size rows, each of size empty cells, to the field. */
    method InitBoard(size: int)
      modifies this
      ensures |field| == |old(field)| + Iterations(size)
      ensures field[..|old(field)|] == old(field)
      ensures forall r :: |old(field)| <= r < |field| ==>
                |field[r]| == Iterations(size) && forall c :: 0 <= c < |field[r]| ==> field[r][c] == Empty
    {
      var y := 0;
      while y < size
        invariant 0 <= y <= Iterations(size)
        invariant |field| == |old(field)| + y
        invariant field[..|old(field)|] == old(field)
        invariant forall r :: |old(field)| <= r < |field| ==>
                    |field[r]| == Iterations(size) && forall c :: 0 <= c < |field[r]| ==> field[r][c] == Empty
      {
        var row: seq<char> := [];
        var x := 0;
        while x < size
          invariant 0 <= x <= Iterations(size)
          invariant |row| == x
          invariant forall c :: 0 <= c < |row| ==> row[c] == Empty
        {
          row := row + [Empty];
          x := x + 1;
        }
        field := field + [row];
        y := y + 1;
      }
    }

    /** Writes p's token at column x, row y when that cell is on the board and
        empty, and reports whether it did; otherwise nothing changes. */
    method SetChar(x: int, y: int, p: Player) returns (ok: bool)
      requires Valid()
      modifies this
      ensures Valid()
      ensures ok <==> CanPlace(old(field), x, y)
      ensures ok ==> field == Place(old(field), x, y, p.token)
      ensures !ok ==> field == old(field)
    {
      if 0 <= y < |field| && 0 <= x < |field| {
        var curr := field[y][x];
        if curr == Empty {
          field := field[y := field[y][x := p.token]];
          return true;
        }
      }
      return false;
    }
  }
}
