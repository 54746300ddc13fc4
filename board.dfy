/** Cells, coordinates and the empty squares of a Caro board, as values.
    The engine in engine.dfy keeps its grid in an array2 and is specified
    against the functions here. */
module Board {

  /** One square: '.', 'X' or 'O'. */
  datatype Cell = Empty | X | O

  /** A coordinate pair (x, y): row x, column y, as stored in the move history. */
  datatype Pos = Pos(x: nat, y: nat)

  /** The grid as its list of rows. */
  type Grid = seq<seq<Cell>>

  /** g has `rows` rows of `cols` cells each. */
  predicate IsGrid(g: Grid, rows: nat, cols: nat) {
    |g| == rows && forall i :: 0 <= i < rows ==> |g[i]| == cols
  }

  predicate InRange(p: Pos, rows: nat, cols: nat) {
    p.x < rows && p.y < cols
  }

  /** The symbol that moves after c. */
  function Other(c: Cell): (d: Cell)
    requires c != Empty
    ensures d != Empty && d != c
  {
    if c == X then O else X
  }

  /** A rows x cols grid of empty squares. */
  function EmptyGrid(rows: nat, cols: nat): (g: Grid)
    ensures IsGrid(g, rows, cols)
    ensures forall i, j :: 0 <= i < rows && 0 <= j < cols ==> g[i][j] == Empty
  {
    seq(rows, _ => seq(cols, _ => Empty))
  }

  /** No square is empty. */
  predicate Full(g: Grid, rows: nat, cols: nat)
    requires IsGrid(g, rows, cols)
  {
    forall i, j :: 0 <= i < rows && 0 <= j < cols ==> g[i][j] != Empty
  }

  /** g with square p set to c. */
  function Place(g: Grid, rows: nat, cols: nat, p: Pos, c: Cell): (h: Grid)
    requires IsGrid(g, rows, cols) && InRange(p, rows, cols)
    ensures IsGrid(h, rows, cols)
    ensures h[p.x][p.y] == c
    ensures forall i, j :: 0 <= i < rows && 0 <= j < cols && (i, j) != (p.x, p.y) ==> h[i][j] == g[i][j]
  {
    g[p.x := g[p.x][p.y := c]]
  }

  /** Two grids of the same shape that agree on every square are equal. */
  lemma GridsEqual(g: Grid, h: Grid, rows: nat, cols: nat)
    requires IsGrid(g, rows, cols) && IsGrid(h, rows, cols)
    requires forall i, j :: 0 <= i < rows && 0 <= j < cols ==> g[i][j] == h[i][j]
    ensures g == h
  {
    assert forall i :: 0 <= i < rows ==> g[i] == h[i];
  }

  /** Row-major order on coordinates: row ascending, then column ascending. */
  predicate Before(p: Pos, q: Pos) {
    p.x < q.x || (p.x == q.x && p.y < q.y)
  }

  /** Strictly increasing in row-major order. */
  predicate RowMajor(s: seq<Pos>) {
    forall i, j :: 0 <= i < j < |s| ==> Before(s[i], s[j])
  }

  /** The empty squares among the first n of row x, in column order. */
  function RowEmpties(row: seq<Cell>, x: nat, n: nat): seq<Pos>
    requires n <= |row|
  {
    if n == 0 then []
    else RowEmpties(row, x, n - 1) + (if row[n - 1] == Empty then [Pos(x, n - 1)] else [])
  }

  /** The empty squares of the first m rows, row by row. */
  function EmptiesUpTo(g: Grid, m: nat): seq<Pos>
    requires m <= |g|
  {
    if m == 0 then [] else EmptiesUpTo(g, m - 1) + RowEmpties(g[m - 1], m - 1, |g[m - 1]|)
  }

  /** The empty squares of the whole grid in row-major order (get_possible_moves). */
  function PossibleMoves(g: Grid): seq<Pos> {
    EmptiesUpTo(g, |g|)
  }

  lemma {:induction false} RowEmptiesMembers(row: seq<Cell>, x: nat, n: nat)
    requires n <= |row|
    ensures forall p :: p in RowEmpties(row, x, n) <==> p.x == x && p.y < n && row[p.y] == Empty
  {
    if n > 0 {
      RowEmptiesMembers(row, x, n - 1);
    }
  }

  lemma {:induction false} RowEmptiesOrdered(row: seq<Cell>, x: nat, n: nat)
    requires n <= |row|
    ensures RowMajor(RowEmpties(row, x, n))
  {
    if n > 0 {
      RowEmptiesOrdered(row, x, n - 1);
      RowEmptiesMembers(row, x, n - 1);
      var s := RowEmpties(row, x, n - 1);
      assert forall i :: 0 <= i < |s| ==> s[i] in s;
    }
  }

  lemma {:induction false} EmptiesUpToMembers(g: Grid, rows: nat, cols: nat, m: nat)
    requires IsGrid(g, rows, cols) && m <= rows
    ensures forall p :: p in EmptiesUpTo(g, m) <==> p.x < m && p.y < cols && g[p.x][p.y] == Empty
  {
    if m > 0 {
      EmptiesUpToMembers(g, rows, cols, m - 1);
      RowEmptiesMembers(g[m - 1], m - 1, cols);
    }
  }

  lemma {:induction false} EmptiesUpToOrdered(g: Grid, rows: nat, cols: nat, m: nat)
    requires IsGrid(g, rows, cols) && m <= rows
    ensures RowMajor(EmptiesUpTo(g, m))
  {
    if m > 0 {
      EmptiesUpToOrdered(g, rows, cols, m - 1);
      EmptiesUpToMembers(g, rows, cols, m - 1);
      RowEmptiesOrdered(g[m - 1], m - 1, cols);
      RowEmptiesMembers(g[m - 1], m - 1, cols);
      var a, r := EmptiesUpTo(g, m - 1), RowEmpties(g[m - 1], m - 1, cols);
      assert forall i :: 0 <= i < |a| ==> a[i] in a;
      assert forall i :: 0 <= i < |r| ==> r[i] in r;
    }
  }

  /** get_possible_moves lists exactly the empty in-range squares. */
  lemma PossibleMovesMembers(g: Grid, rows: nat, cols: nat)
    requires IsGrid(g, rows, cols)
    ensures forall p :: p in PossibleMoves(g) <==> InRange(p, rows, cols) && g[p.x][p.y] == Empty
  {
    EmptiesUpToMembers(g, rows, cols, rows);
  }

  /** get_possible_moves lists them in row-major order, hence without duplicates. */
  lemma PossibleMovesOrdered(g: Grid, rows: nat, cols: nat)
    requires IsGrid(g, rows, cols)
    ensures RowMajor(PossibleMoves(g))
    ensures forall i, j :: 0 <= i < j < |PossibleMoves(g)| ==> PossibleMoves(g)[i] != PossibleMoves(g)[j]
  {
    EmptiesUpToOrdered(g, rows, cols, rows);
  }

  /** is_terminate holds exactly when get_possible_moves is empty. */
  lemma FullIffNoMoves(g: Grid, rows: nat, cols: nat)
    requires IsGrid(g, rows, cols)
    ensures Full(g, rows, cols) <==> PossibleMoves(g) == []
  {
    PossibleMovesMembers(g, rows, cols);
    if !Full(g, rows, cols) {
      var i, j :| 0 <= i < rows && 0 <= j < cols && g[i][j] == Empty;
      assert Pos(i, j) in PossibleMoves(g);
    }
    if PossibleMoves(g) != [] {
      var p := PossibleMoves(g)[0];
      assert p in PossibleMoves(g);
      assert g[p.x][p.y] == Empty;
    }
  }

  lemma {:induction false} RowEmptiesAllEmpty(row: seq<Cell>, x: nat, n: nat)
    requires n <= |row|
    requires forall j :: 0 <= j < |row| ==> row[j] == Empty
    ensures |RowEmpties(row, x, n)| == n
  {
    if n > 0 {
      RowEmptiesAllEmpty(row, x, n - 1);
    }
  }

  lemma {:induction false} EmptiesUpToAllEmpty(rows: nat, cols: nat, m: nat)
    requires m <= rows
    ensures |EmptiesUpTo(EmptyGrid(rows, cols), m)| == m * cols
  {
    if m > 0 {
      EmptiesUpToAllEmpty(rows, cols, m - 1);
      RowEmptiesAllEmpty(EmptyGrid(rows, cols)[m - 1], m - 1, cols);
    }
  }

  /** An empty board offers every one of its rows * cols squares. */
  lemma EmptyGridMoves(rows: nat, cols: nat)
    ensures |PossibleMoves(EmptyGrid(rows, cols))| == rows * cols
  {
    EmptiesUpToAllEmpty(rows, cols, rows);
  }

  lemma {:induction false} RowEmptiesPlace(row: seq<Cell>, x: nat, y: nat, c: Cell, n: nat)
    requires y < |row| && n <= |row| && row[y] == Empty && c != Empty
    ensures |RowEmpties(row[y := c], x, n)| + (if y < n then 1 else 0) == |RowEmpties(row, x, n)|
  {
    if n > 0 {
      RowEmptiesPlace(row, x, y, c, n - 1);
    }
  }

  lemma {:induction false} EmptiesUpToPlace(g: Grid, rows: nat, cols: nat, p: Pos, c: Cell, m: nat)
    requires IsGrid(g, rows, cols) && InRange(p, rows, cols) && m <= rows
    requires g[p.x][p.y] == Empty && c != Empty
    ensures |EmptiesUpTo(Place(g, rows, cols, p, c), m)| + (if p.x < m then 1 else 0) == |EmptiesUpTo(g, m)|
  {
    if m > 0 {
      EmptiesUpToPlace(g, rows, cols, p, c, m - 1);
      var h := Place(g, rows, cols, p, c);
      if m - 1 == p.x {
        RowEmptiesPlace(g[p.x], p.x, p.y, c, cols);
      } else {
        assert h[m - 1] == g[m - 1];
      }
    }
  }

  /** Filling one empty square removes exactly one possible move. */
  lemma PlaceRemovesOneMove(g: Grid, rows: nat, cols: nat, p: Pos, c: Cell)
    requires IsGrid(g, rows, cols) && InRange(p, rows, cols)
    requires g[p.x][p.y] == Empty && c != Empty
    ensures |PossibleMoves(Place(g, rows, cols, p, c))| + 1 == |PossibleMoves(g)|
  {
    EmptiesUpToPlace(g, rows, cols, p, c, rows);
  }

  /** The move history of board g: distinct coordinates, exactly the occupied
      squares; so the empty squares and the history together number rows * cols. */
  ghost predicate HistoryOf(g: Grid, rows: nat, cols: nat, history: seq<Pos>)
    requires IsGrid(g, rows, cols)
  {
    && (forall i, j :: 0 <= i < j < |history| ==> history[i] != history[j])
    && (forall p :: p in history ==> InRange(p, rows, cols) && g[p.x][p.y] != Empty)
    && (forall i, j :: 0 <= i < rows && 0 <= j < cols && g[i][j] != Empty ==> Pos(i, j) in history)
    && |PossibleMoves(g)| + |history| == rows * cols
  }

  /** A new board has an empty history. */
  lemma EmptyHistory(rows: nat, cols: nat)
    ensures HistoryOf(EmptyGrid(rows, cols), rows, cols, [])
  {
    EmptyGridMoves(rows, cols);
  }

  /** Playing an empty square and appending it keeps the history exact. */
  lemma PlaceExtendsHistory(g: Grid, rows: nat, cols: nat, history: seq<Pos>, p: Pos, c: Cell)
    requires IsGrid(g, rows, cols) && InRange(p, rows, cols)
    requires g[p.x][p.y] == Empty && c != Empty
    requires HistoryOf(g, rows, cols, history)
    ensures HistoryOf(Place(g, rows, cols, p, c), rows, cols, history + [p])
  {
    var h, history' := Place(g, rows, cols, p, c), history + [p];
    PlaceRemovesOneMove(g, rows, cols, p, c);
    assert p !in history;
    forall i, j | 0 <= i < j < |history'| ensures history'[i] != history'[j] {
      if j == |history| {
        assert history'[i] == history[i] && history[i] in history;
      }
    }
    forall q | q in history' ensures InRange(q, rows, cols) && h[q.x][q.y] != Empty {
      if q != p {
        assert q in history;
      }
    }
  }
}
