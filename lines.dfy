/** The lines of a board that win detection scans: the rows, the columns
    (the transpose) and the two diagonal families. Each diagonal is first
    given as the list of coordinates it visits, so that coverage of the board
    can be stated on coordinates; its cells are then read off the grid. */
module Lines {
  import opened Board

  function Min(a: int, b: int): int {
    if a <= b then a else b
  }

  /** The columns of g, each read top to bottom (get_all_colummns). */
  function Transpose(g: Grid, rows: nat, cols: nat): (t: Grid)
    requires IsGrid(g, rows, cols)
    ensures IsGrid(t, cols, rows)
  {
    seq(cols, y requires 0 <= y < cols => seq(rows, x requires 0 <= x < rows => g[x][y]))
  }

  /** Column y of the columns is row y of the grid read downwards, and transposing twice gives the grid back. */
  lemma TransposeInvolution(g: Grid, rows: nat, cols: nat)
    requires IsGrid(g, rows, cols)
    ensures forall y, x :: 0 <= y < cols && 0 <= x < rows ==> Transpose(g, rows, cols)[y][x] == g[x][y]
    ensures Transpose(Transpose(g, rows, cols), cols, rows) == g
  {
    var t := Transpose(Transpose(g, rows, cols), cols, rows);
    assert forall x :: 0 <= x < rows ==> t[x] == g[x];
  }

  /** Number of diagonals that start in column 0 below row 0 (or above the last row). */
  function SideStarts(rows: nat): nat {
    if rows == 0 then 0 else rows - 1
  }

  /** Number of diagonals in one family: rows + cols - 1 on a board with at least one row. */
  function FamilySize(rows: nat, cols: nat): nat {
    cols + SideStarts(rows)
  }

  /** Down-right diagonal starting at (0, y). */
  function DownFromTop(rows: nat, cols: nat, y: nat): seq<Pos>
    requires y < cols
  {
    seq(Min(rows, cols - y), i requires 0 <= i < Min(rows, cols - y) => Pos(i, y + i))
  }

  /** Down-right diagonal starting at (x, 0), x >= 1. */
  function DownFromSide(rows: nat, cols: nat, x: nat): seq<Pos>
    requires 1 <= x < rows
  {
    seq(Min(rows - x, cols), i requires 0 <= i < Min(rows - x, cols) => Pos(x + i, i))
  }

  /** Up-right diagonal starting at (rows - 1, y). */
  function UpFromBottom(rows: nat, cols: nat, y: nat): seq<Pos>
    requires y < cols
  {
    seq(Min(rows, cols - y), i requires 0 <= i < Min(rows, cols - y) => Pos(rows - 1 - i, y + i))
  }

  /** Up-right diagonal starting at (x, 0), x < rows - 1. */
  function UpFromSide(rows: nat, cols: nat, x: nat): seq<Pos>
    requires x + 1 < rows
  {
    seq(Min(x + 1, cols), i requires 0 <= i < Min(x + 1, cols) => Pos(x - i, i))
  }

  /** Diagonal d in the order get_all_diagonals produces them: first the
      down-right family (from the top row, then from the left column below
      row 0), then the up-right family (from the bottom row, then from the
      left column above the bottom row). */
  function DiagonalLine(rows: nat, cols: nat, d: nat): (line: seq<Pos>)
    requires d < 2 * FamilySize(rows, cols)
    ensures forall k :: 0 <= k < |line| ==> InRange(line[k], rows, cols)
  {
    var n := FamilySize(rows, cols);
    if d < cols then DownFromTop(rows, cols, d)
    else if d < n then DownFromSide(rows, cols, d - cols + 1)
    else if d < n + cols then UpFromBottom(rows, cols, d - n)
    else UpFromSide(rows, cols, d - n - cols)
  }

  /** Which down-right diagonal holds p, and where in it. */
  function DownIndex(p: Pos, cols: nat): nat {
    if p.x <= p.y then p.y - p.x else cols + p.x - p.y - 1
  }
  function DownOffset(p: Pos): nat {
    if p.x <= p.y then p.x else p.y
  }

  /** Which up-right diagonal holds p, and where in it. */
  function UpIndex(p: Pos, rows: nat, cols: nat): nat
    requires p.x < rows
  {
    FamilySize(rows, cols) + (if p.x + p.y + 1 >= rows then p.x + p.y + 1 - rows else cols + p.x + p.y)
  }
  function UpOffset(p: Pos, rows: nat): nat
    requires p.x < rows
  {
    if p.x + p.y + 1 >= rows then rows - 1 - p.x else p.y
  }

  /** Square p is found in down-right diagonal DownIndex(p) at DownOffset(p). */
  lemma DownRightAt(rows: nat, cols: nat, p: Pos)
    requires InRange(p, rows, cols)
    ensures DownIndex(p, cols) < FamilySize(rows, cols)
    ensures DownOffset(p) < |DiagonalLine(rows, cols, DownIndex(p, cols))|
    ensures DiagonalLine(rows, cols, DownIndex(p, cols))[DownOffset(p)] == p
  {
    if p.x <= p.y {
      assert DiagonalLine(rows, cols, p.y - p.x) == DownFromTop(rows, cols, p.y - p.x);
    } else {
      assert DiagonalLine(rows, cols, cols + (p.x - p.y) - 1) == DownFromSide(rows, cols, p.x - p.y);
    }
  }

  /** Every square lies on exactly one down-right diagonal, exactly once. */
  lemma DownRightCover(rows: nat, cols: nat, p: Pos)
    requires InRange(p, rows, cols)
    ensures DownIndex(p, cols) < FamilySize(rows, cols)
    ensures DownOffset(p) < |DiagonalLine(rows, cols, DownIndex(p, cols))|
    ensures forall d, k :: 0 <= d < FamilySize(rows, cols) && 0 <= k < |DiagonalLine(rows, cols, d)| ==>
              (DiagonalLine(rows, cols, d)[k] == p <==> d == DownIndex(p, cols) && k == DownOffset(p))
  {
    forall d, k | 0 <= d < FamilySize(rows, cols) && 0 <= k < |DiagonalLine(rows, cols, d)| && DiagonalLine(rows, cols, d)[k] == p
      ensures d == DownIndex(p, cols) && k == DownOffset(p)
    {
      if d < cols {
        assert DiagonalLine(rows, cols, d) == DownFromTop(rows, cols, d);
      } else {
        assert DiagonalLine(rows, cols, d) == DownFromSide(rows, cols, d - cols + 1);
      }
    }
    DownRightAt(rows, cols, p);
  }

  /** Square p is found in up-right diagonal UpIndex(p) at UpOffset(p). */
  lemma UpRightAt(rows: nat, cols: nat, p: Pos)
    requires InRange(p, rows, cols)
    ensures FamilySize(rows, cols) <= UpIndex(p, rows, cols) < 2 * FamilySize(rows, cols)
    ensures UpOffset(p, rows) < |DiagonalLine(rows, cols, UpIndex(p, rows, cols))|
    ensures DiagonalLine(rows, cols, UpIndex(p, rows, cols))[UpOffset(p, rows)] == p
  {
    var n := FamilySize(rows, cols);
    if p.x + p.y + 1 >= rows {
      assert DiagonalLine(rows, cols, n + p.x + p.y + 1 - rows) == UpFromBottom(rows, cols, p.x + p.y + 1 - rows);
    } else {
      assert DiagonalLine(rows, cols, n + cols + p.x + p.y) == UpFromSide(rows, cols, p.x + p.y);
    }
  }

  /** Every square lies on exactly one up-right diagonal, exactly once. */
  lemma UpRightCover(rows: nat, cols: nat, p: Pos)
    requires InRange(p, rows, cols)
    ensures FamilySize(rows, cols) <= UpIndex(p, rows, cols) < 2 * FamilySize(rows, cols)
    ensures UpOffset(p, rows) < |DiagonalLine(rows, cols, UpIndex(p, rows, cols))|
    ensures forall d, k :: FamilySize(rows, cols) <= d < 2 * FamilySize(rows, cols) && 0 <= k < |DiagonalLine(rows, cols, d)| ==>
              (DiagonalLine(rows, cols, d)[k] == p <==> d == UpIndex(p, rows, cols) && k == UpOffset(p, rows))
  {
    var n := FamilySize(rows, cols);
    forall d, k | n <= d < 2 * n && 0 <= k < |DiagonalLine(rows, cols, d)| && DiagonalLine(rows, cols, d)[k] == p
      ensures d == UpIndex(p, rows, cols) && k == UpOffset(p, rows)
    {
      if d < n + cols {
        assert DiagonalLine(rows, cols, d) == UpFromBottom(rows, cols, d - n);
      } else {
        assert DiagonalLine(rows, cols, d) == UpFromSide(rows, cols, d - n - cols);
      }
    }
    UpRightAt(rows, cols, p);
  }

  /** A down-right diagonal is a straight line: each step goes one row down and one column right. */
  lemma DownRightSteps(rows: nat, cols: nat, d: nat)
    requires d < FamilySize(rows, cols)
    ensures forall i :: 0 <= i < |DiagonalLine(rows, cols, d)| ==>
              DiagonalLine(rows, cols, d)[i].x == DiagonalLine(rows, cols, d)[0].x + i &&
              DiagonalLine(rows, cols, d)[i].y == DiagonalLine(rows, cols, d)[0].y + i
  {
    if d < cols {
      assert DiagonalLine(rows, cols, d) == DownFromTop(rows, cols, d);
    } else {
      assert DiagonalLine(rows, cols, d) == DownFromSide(rows, cols, d - cols + 1);
    }
  }

  /** An up-right diagonal is a straight line: each step goes one row up and one column right. */
  lemma UpRightSteps(rows: nat, cols: nat, d: nat)
    requires FamilySize(rows, cols) <= d < 2 * FamilySize(rows, cols)
    ensures forall i :: 0 <= i < |DiagonalLine(rows, cols, d)| ==>
              DiagonalLine(rows, cols, d)[i].x + i == DiagonalLine(rows, cols, d)[0].x &&
              DiagonalLine(rows, cols, d)[i].y == DiagonalLine(rows, cols, d)[0].y + i
  {
    var n := FamilySize(rows, cols);
    if d < n + cols {
      assert DiagonalLine(rows, cols, d) == UpFromBottom(rows, cols, d - n);
    } else {
      assert DiagonalLine(rows, cols, d) == UpFromSide(rows, cols, d - n - cols);
    }
  }

  /** The cells of g along a line of coordinates. */
  function CellsOf(g: Grid, rows: nat, cols: nat, line: seq<Pos>): (s: seq<Cell>)
    requires IsGrid(g, rows, cols)
    requires forall k :: 0 <= k < |line| ==> InRange(line[k], rows, cols)
    ensures |s| == |line|
  {
    seq(|line|, k requires 0 <= k < |line| && InRange(line[k], rows, cols) && IsGrid(g, rows, cols) => g[line[k].x][line[k].y])
  }

  /** The cells of every diagonal of g, in get_all_diagonals order: 2 * FamilySize of them. */
  function Diagonals(g: Grid, rows: nat, cols: nat): (ds: seq<seq<Cell>>)
    requires IsGrid(g, rows, cols)
    ensures |ds| == 2 * FamilySize(rows, cols)
  {
    seq(2 * FamilySize(rows, cols), d requires 0 <= d < 2 * FamilySize(rows, cols) => CellsOf(g, rows, cols, DiagonalLine(rows, cols, d)))
  }

  /** The cells read from (0, y) stepping down-right make diagonal y. */
  lemma DownFromTopCells(g: Grid, rows: nat, cols: nat, y: nat, diagonal: seq<Cell>)
    requires IsGrid(g, rows, cols) && y < cols
    requires |diagonal| == Min(rows, cols - y)
    requires forall i :: 0 <= i < |diagonal| ==> diagonal[i] == g[i][y + i]
    ensures y < |Diagonals(g, rows, cols)| && diagonal == Diagonals(g, rows, cols)[y]
  {
    assert DiagonalLine(rows, cols, y) == DownFromTop(rows, cols, y);
  }

  /** The cells read from (x, 0), x >= 1, stepping down-right make diagonal cols + x - 1. */
  lemma DownFromSideCells(g: Grid, rows: nat, cols: nat, x: nat, diagonal: seq<Cell>)
    requires IsGrid(g, rows, cols) && 1 <= x < rows
    requires |diagonal| == Min(rows - x, cols)
    requires forall i :: 0 <= i < |diagonal| ==> diagonal[i] == g[x + i][i]
    ensures cols + x - 1 < |Diagonals(g, rows, cols)| && diagonal == Diagonals(g, rows, cols)[cols + x - 1]
  {
    assert DiagonalLine(rows, cols, cols + x - 1) == DownFromSide(rows, cols, x);
  }

  /** The cells read from (rows - 1, y) stepping up-right make diagonal FamilySize + y. */
  lemma UpFromBottomCells(g: Grid, rows: nat, cols: nat, y: nat, diagonal: seq<Cell>)
    requires IsGrid(g, rows, cols) && y < cols
    requires |diagonal| == Min(rows, cols - y)
    requires forall i :: 0 <= i < |diagonal| ==> diagonal[i] == g[rows - 1 - i][y + i]
    ensures FamilySize(rows, cols) + y < |Diagonals(g, rows, cols)|
    ensures diagonal == Diagonals(g, rows, cols)[FamilySize(rows, cols) + y]
  {
    assert DiagonalLine(rows, cols, FamilySize(rows, cols) + y) == UpFromBottom(rows, cols, y);
  }

  /** The cells read from (x, 0), x < rows - 1, stepping up-right make diagonal FamilySize + cols + x. */
  lemma UpFromSideCells(g: Grid, rows: nat, cols: nat, x: nat, diagonal: seq<Cell>)
    requires IsGrid(g, rows, cols) && x + 1 < rows
    requires |diagonal| == Min(x + 1, cols)
    requires forall i :: 0 <= i < |diagonal| ==> diagonal[i] == g[x - i][i]
    ensures FamilySize(rows, cols) + cols + x < |Diagonals(g, rows, cols)|
    ensures diagonal == Diagonals(g, rows, cols)[FamilySize(rows, cols) + cols + x]
  {
    assert DiagonalLine(rows, cols, FamilySize(rows, cols) + cols + x) == UpFromSide(rows, cols, x);
  }

  /** On a board with a row, get_all_diagonals lists rows + cols - 1
      diagonals of each family, and the one from (0, y) has min(rows, cols - y) squares. */
  lemma DiagonalCounts(g: Grid, rows: nat, cols: nat, y: nat)
    requires IsGrid(g, rows, cols) && rows >= 1 && y < cols
    ensures |Diagonals(g, rows, cols)| == 2 * (rows + cols - 1)
    ensures |Diagonals(g, rows, cols)[y]| == Min(rows, cols - y)
  {
    assert DiagonalLine(rows, cols, y) == DownFromTop(rows, cols, y);
  }
}
