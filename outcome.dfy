/** Win and draw detection (get_winner and its inner check_consecutive) as
    functions on a grid, and what their results mean: a result of 0 or 1
    says that some row, column or diagonal holds winningCondition equal
    marks in a row, 2 says no line does and the board is full, -1 says no
    line does and a square is still empty. */
module Outcome {
  import opened Board
  import opened Lines

  datatype Option<T> = None | Some(value: T)

  /** Codes returned by get_winner. */
  const XWins := 0
  const OWins := 1
  const Draw := 2
  const Ongoing := -1

  /** How many copies of c end s: the counter check_consecutive holds for c
      (count_x for X, count_y for O) after reading the cells of s. */
  function Trailing(s: seq<Cell>, c: Cell): (n: nat)
    ensures n <= |s|
  {
    if |s| == 0 || s[|s| - 1] != c then 0 else Trailing(s[..|s| - 1], c) + 1
  }

  /** Positions i .. i+k-1 of s all hold c. */
  predicate RunAt(s: seq<Cell>, c: Cell, k: nat, i: nat) {
    i + k <= |s| && forall t :: i <= t < i + k ==> s[t] == c
  }

  /** s holds k consecutive copies of c somewhere. */
  predicate HasRun(s: seq<Cell>, c: Cell, k: nat) {
    exists i: nat :: i <= |s| && RunAt(s, c, k, i)
  }

  /** Some line of lines holds k consecutive copies of c. */
  predicate AnyRun(lines: seq<seq<Cell>>, c: Cell, k: nat) {
    exists l :: 0 <= l < |lines| && HasRun(lines[l], c, k)
  }

  /** The counter for c reaches k on reading cell e of line. */
  predicate EndsRun(line: seq<Cell>, c: Cell, k: nat, e: nat)
    requires e < |line|
  {
    Trailing(line[..e + 1], c) >= k
  }

  /** The counter reaches n exactly when the last n cells are all c. */
  lemma {:induction false} TrailingRun(s: seq<Cell>, c: Cell, n: nat)
    ensures Trailing(s, c) >= n <==> n <= |s| && RunAt(s, c, n, |s| - n)
  {
    if n > 0 && |s| > 0 && s[|s| - 1] == c {
      var s' := s[..|s| - 1];
      TrailingRun(s', c, n - 1);
      if n - 1 <= |s'| && RunAt(s', c, n - 1, |s'| - (n - 1)) {
        assert RunAt(s, c, n, |s| - n);
      }
      if n <= |s| && RunAt(s, c, n, |s| - n) {
        assert RunAt(s', c, n - 1, |s'| - (n - 1));
      }
    }
  }

  /** A run of k >= 1 copies of c is a cell on which the counter for c reaches k. */
  lemma HasRunIffEnds(line: seq<Cell>, c: Cell, k: nat)
    requires k >= 1
    ensures HasRun(line, c, k) <==> exists e :: 0 <= e < |line| && EndsRun(line, c, k, e)
  {
    if HasRun(line, c, k) {
      var i: nat :| i <= |line| && RunAt(line, c, k, i);
      assert i + k <= |line|;
      var e := i + k - 1;
      TrailingRun(line[..e + 1], c, k);
      assert RunAt(line[..e + 1], c, k, i);
      assert EndsRun(line, c, k, e);
    }
    if e :| 0 <= e < |line| && EndsRun(line, c, k, e) {
      TrailingRun(line[..e + 1], c, k);
      var i := e + 1 - k;
      assert RunAt(line, c, k, i);
    }
  }

  /** The symbol whose counter first reaches k when the line is read from
      cell e on, X before O on the same cell, as check_consecutive tests them. */
  function FirstRunFrom(line: seq<Cell>, k: nat, e: nat): Option<Cell>
    requires e <= |line|
    decreases |line| - e
  {
    if e == |line| then None
    else if EndsRun(line, X, k, e) then Some(X)
    else if EndsRun(line, O, k, e) then Some(O)
    else FirstRunFrom(line, k, e + 1)
  }

  lemma {:induction false} FirstRunFromMeaning(line: seq<Cell>, k: nat, e: nat)
    requires e <= |line|
    decreases |line| - e
    ensures FirstRunFrom(line, k, e) == None <==>
              forall e' :: e <= e' < |line| ==> !EndsRun(line, X, k, e') && !EndsRun(line, O, k, e')
    ensures FirstRunFrom(line, k, e) != Some(Empty)
    ensures FirstRunFrom(line, k, e) == Some(X) ==> exists e' :: e <= e' < |line| && EndsRun(line, X, k, e')
    ensures FirstRunFrom(line, k, e) == Some(O) ==> exists e' :: e <= e' < |line| && EndsRun(line, O, k, e')
  {
    if e < |line| {
      FirstRunFromMeaning(line, k, e + 1);
    }
  }

  /** check_consecutive on one line finds a symbol exactly when the line
      holds a run of k of that symbol; it reports None only when neither
      symbol has one. */
  lemma FirstRunMeaning(line: seq<Cell>, k: nat)
    requires k >= 1
    ensures FirstRunFrom(line, k, 0) == None <==> !HasRun(line, X, k) && !HasRun(line, O, k)
    ensures FirstRunFrom(line, k, 0) != Some(Empty)
    ensures FirstRunFrom(line, k, 0) == Some(X) ==> HasRun(line, X, k)
    ensures FirstRunFrom(line, k, 0) == Some(O) ==> HasRun(line, O, k)
  {
    FirstRunFromMeaning(line, k, 0);
    HasRunIffEnds(line, X, k);
    HasRunIffEnds(line, O, k);
  }

  /** check_consecutive: the first line, in order, on which a counter
      reaches k decides the result; -1 when there is none. */
  function LinesWinner(lines: seq<seq<Cell>>, k: nat): int {
    if |lines| == 0 then Ongoing
    else match FirstRunFrom(lines[0], k, 0)
      case Some(c) => if c == X then XWins else OWins
      case None => LinesWinner(lines[1..], k)
  }

  /** check_consecutive returns -1 exactly when no line holds a run of k,
      and 0 (1) only when some line holds a run of k X (O). */
  lemma {:induction false} LinesWinnerMeaning(lines: seq<seq<Cell>>, k: nat)
    requires k >= 1
    ensures LinesWinner(lines, k) in {XWins, OWins, Ongoing}
    ensures LinesWinner(lines, k) == Ongoing <==> !AnyRun(lines, X, k) && !AnyRun(lines, O, k)
    ensures LinesWinner(lines, k) == XWins ==> AnyRun(lines, X, k)
    ensures LinesWinner(lines, k) == OWins ==> AnyRun(lines, O, k)
  {
    if |lines| > 0 {
      LinesWinnerMeaning(lines[1..], k);
      FirstRunMeaning(lines[0], k);
      forall c, l | 0 <= l < |lines| - 1 && HasRun(lines[1..][l], c, k)
        ensures AnyRun(lines, c, k)
      {
        assert lines[1..][l] == lines[l + 1];
      }
      forall c, l | 0 < l < |lines| && HasRun(lines[l], c, k)
        ensures AnyRun(lines[1..], c, k)
      {
        assert lines[1..][l - 1] == lines[l];
      }
    }
  }

  /** Every line get_winner scans: rows, then columns, then diagonals. */
  function AllLines(g: Grid, rows: nat, cols: nat): (ls: seq<seq<Cell>>)
    requires IsGrid(g, rows, cols)
    ensures |ls| == rows + cols + 2 * FamilySize(rows, cols)
  {
    g + Transpose(g, rows, cols) + Diagonals(g, rows, cols)
  }

  /** get_winner: the rows are checked, then the columns, then the diagonals,
      and only when none holds a run is the board tested for a draw. */
  function Winner(g: Grid, rows: nat, cols: nat, k: nat): int
    requires IsGrid(g, rows, cols)
  {
    var byRow := LinesWinner(g, k);
    if byRow != Ongoing then byRow
    else
      var byColumn := LinesWinner(Transpose(g, rows, cols), k);
      if byColumn != Ongoing then byColumn
      else
        var byDiagonal := LinesWinner(Diagonals(g, rows, cols), k);
        if byDiagonal != Ongoing then byDiagonal
        else if Full(g, rows, cols) then Draw
        else Ongoing
  }

  /** get_winner scans the rows first, the columns next and the diagonals
      last: a run in a row decides the result from the rows alone, and a run
      in a column, with none in any row, decides it from the columns alone. */
  lemma ScanOrder(g: Grid, rows: nat, cols: nat, k: nat)
    requires IsGrid(g, rows, cols) && k >= 1
    ensures AnyRun(g, X, k) || AnyRun(g, O, k) ==>
              Winner(g, rows, cols, k) == LinesWinner(g, k) != Ongoing
    ensures !AnyRun(g, X, k) && !AnyRun(g, O, k) &&
            (AnyRun(Transpose(g, rows, cols), X, k) || AnyRun(Transpose(g, rows, cols), O, k)) ==>
              Winner(g, rows, cols, k) == LinesWinner(Transpose(g, rows, cols), k) != Ongoing
  {
    LinesWinnerMeaning(g, k);
    LinesWinnerMeaning(Transpose(g, rows, cols), k);
  }

  lemma AnyRunConcat(a: seq<seq<Cell>>, b: seq<seq<Cell>>, c: Cell, k: nat)
    ensures AnyRun(a + b, c, k) <==> AnyRun(a, c, k) || AnyRun(b, c, k)
  {
    if AnyRun(a + b, c, k) {
      var l :| 0 <= l < |a + b| && HasRun((a + b)[l], c, k);
      if l >= |a| {
        assert (a + b)[l] == b[l - |a|];
      }
    }
    if AnyRun(a, c, k) {
      var l :| 0 <= l < |a| && HasRun(a[l], c, k);
      assert (a + b)[l] == a[l];
    }
    if AnyRun(b, c, k) {
      var l :| 0 <= l < |b| && HasRun(b[l], c, k);
      assert (a + b)[|a| + l] == b[l];
    }
  }

  /** What get_winner reports. A win (0 for X, 1 for O) only when some row,
      column or diagonal holds k marks of that symbol in a row; a win whenever
      any line holds such a run, even on a full board (the win is found before
      the draw); 2 exactly when no line holds a run and the board is full; -1
      exactly when no line holds a run and a square is empty. */
  lemma WinnerMeaning(g: Grid, rows: nat, cols: nat, k: nat)
    requires IsGrid(g, rows, cols) && k >= 1
    ensures Winner(g, rows, cols, k) in {XWins, OWins, Draw, Ongoing}
    ensures Winner(g, rows, cols, k) == XWins ==> AnyRun(AllLines(g, rows, cols), X, k)
    ensures Winner(g, rows, cols, k) == OWins ==> AnyRun(AllLines(g, rows, cols), O, k)
    ensures Winner(g, rows, cols, k) in {XWins, OWins} <==>
              AnyRun(AllLines(g, rows, cols), X, k) || AnyRun(AllLines(g, rows, cols), O, k)
    ensures Winner(g, rows, cols, k) == Draw <==>
              !AnyRun(AllLines(g, rows, cols), X, k) && !AnyRun(AllLines(g, rows, cols), O, k) && Full(g, rows, cols)
    ensures Winner(g, rows, cols, k) == Ongoing <==>
              !AnyRun(AllLines(g, rows, cols), X, k) && !AnyRun(AllLines(g, rows, cols), O, k) && !Full(g, rows, cols)
  {
    var t, ds := Transpose(g, rows, cols), Diagonals(g, rows, cols);
    LinesWinnerMeaning(g, k);
    LinesWinnerMeaning(t, k);
    LinesWinnerMeaning(ds, k);
    AnyRunConcat(g, t, X, k);
    AnyRunConcat(g, t, O, k);
    AnyRunConcat(g + t, ds, X, k);
    AnyRunConcat(g + t, ds, O, k);
  }

  /** When only one symbol has a run anywhere, get_winner names that symbol. */
  lemma SoleRunWins(g: Grid, rows: nat, cols: nat, k: nat, c: Cell)
    requires IsGrid(g, rows, cols) && k >= 1 && c != Empty
    requires AnyRun(AllLines(g, rows, cols), c, k) && !AnyRun(AllLines(g, rows, cols), Other(c), k)
    ensures Winner(g, rows, cols, k) == (if c == X then XWins else OWins)
  {
    WinnerMeaning(g, rows, cols, k);
  }

  /** The four directions a line of the board runs in. */
  datatype Direction = Across | Down | DownRight | UpRight

  /** The square t steps from p in direction dir, as (row, column). */
  function Along(p: Pos, dir: Direction, t: nat): (int, int) {
    match dir
    case Across => (p.x, p.y + t)
    case Down => (p.x + t, p.y)
    case DownRight => (p.x + t, p.y + t)
    case UpRight => (p.x - t, p.y + t)
  }

  /** The k squares from p in direction dir are on the board and all hold c. */
  predicate StraightRun(g: Grid, rows: nat, cols: nat, p: Pos, dir: Direction, k: nat, c: Cell)
    requires IsGrid(g, rows, cols)
  {
    forall t :: 0 <= t < k ==>
      var q := Along(p, dir, t);
      0 <= q.0 < rows && 0 <= q.1 < cols && g[q.0][q.1] == c
  }

  /** k equal marks in a straight line on the board show up as a run in one
      of the lines get_winner scans: the lines cover every row, column and
      diagonal of the board. */
  lemma StraightRunIsScanned(g: Grid, rows: nat, cols: nat, p: Pos, dir: Direction, k: nat, c: Cell)
    requires IsGrid(g, rows, cols) && k >= 1
    requires StraightRun(g, rows, cols, p, dir, k, c)
    ensures AnyRun(AllLines(g, rows, cols), c, k)
  {
    var all := AllLines(g, rows, cols);
    assert Along(p, dir, 0) == (p.x, p.y);
    var l: nat;
    match dir {
      case Across =>
        AcrossRun(g, rows, cols, p, k, c);
        l := p.x;
      case Down =>
        DownRun(g, rows, cols, p, k, c);
        l := rows + p.y;
      case DownRight =>
        DownRightRun(g, rows, cols, p, k, c);
        l := rows + cols + DownIndex(p, cols);
      case UpRight =>
        UpRightRun(g, rows, cols, p, k, c);
        l := rows + cols + UpIndex(p, rows, cols);
    }
    assert HasRun(all[l], c, k);
  }

  lemma AcrossRun(g: Grid, rows: nat, cols: nat, p: Pos, k: nat, c: Cell)
    requires IsGrid(g, rows, cols) && k >= 1
    requires StraightRun(g, rows, cols, p, Across, k, c)
    ensures p.x < rows && HasRun(AllLines(g, rows, cols)[p.x], c, k)
  {
    assert Along(p, Across, 0) == (p.x, p.y);
    assert Along(p, Across, k - 1) == (p.x, p.y + k - 1);
    assert AllLines(g, rows, cols)[p.x] == g[p.x];
    forall t | p.y <= t < p.y + k ensures t < |g[p.x]| && g[p.x][t] == c {
      assert Along(p, Across, t - p.y) == (p.x, t);
    }
    assert RunAt(g[p.x], c, k, p.y);
  }

  lemma DownRun(g: Grid, rows: nat, cols: nat, p: Pos, k: nat, c: Cell)
    requires IsGrid(g, rows, cols) && k >= 1
    requires StraightRun(g, rows, cols, p, Down, k, c)
    ensures p.y < cols && HasRun(AllLines(g, rows, cols)[rows + p.y], c, k)
  {
    assert Along(p, Down, 0) == (p.x, p.y);
    assert Along(p, Down, k - 1) == (p.x + k - 1, p.y);
    var col := Transpose(g, rows, cols)[p.y];
    assert AllLines(g, rows, cols)[rows + p.y] == col;
    forall t | p.x <= t < p.x + k ensures t < |col| && col[t] == c {
      assert Along(p, Down, t - p.x) == (t, p.y);
    }
    assert RunAt(col, c, k, p.x);
  }

  /** The cells read along a line of coordinates hold a run where the coordinates do. */
  lemma CellsRun(g: Grid, rows: nat, cols: nat, ps: seq<Pos>, off: nat, k: nat, c: Cell)
    requires IsGrid(g, rows, cols)
    requires forall t :: 0 <= t < |ps| ==> ps[t].x < rows && ps[t].y < cols
    requires off + k <= |ps|
    requires forall t :: off <= t < off + k ==> g[ps[t].x][ps[t].y] == c
    ensures RunAt(CellsOf(g, rows, cols, ps), c, k, off)
  {
  }

  /** Diagonal d is line rows + cols + d of AllLines. */
  lemma DiagonalInAllLines(g: Grid, rows: nat, cols: nat, d: nat)
    requires IsGrid(g, rows, cols) && d < 2 * FamilySize(rows, cols)
    ensures rows + cols + d < |AllLines(g, rows, cols)|
    ensures AllLines(g, rows, cols)[rows + cols + d] == CellsOf(g, rows, cols, DiagonalLine(rows, cols, d))
  {
    assert AllLines(g, rows, cols)[rows + cols + d] == Diagonals(g, rows, cols)[d];
  }

  /** The k squares from p down-right are consecutive in p's down-right diagonal. */
  lemma DownRightConsecutive(rows: nat, cols: nat, p: Pos, k: nat)
    requires InRange(p, rows, cols) && k >= 1 && InRange(Pos(p.x + k - 1, p.y + k - 1), rows, cols)
    ensures DownIndex(p, cols) < FamilySize(rows, cols)
    ensures DownOffset(p) + k <= |DiagonalLine(rows, cols, DownIndex(p, cols))|
    ensures forall t :: DownOffset(p) <= t < DownOffset(p) + k ==>
              DiagonalLine(rows, cols, DownIndex(p, cols))[t] == Pos(p.x + (t - DownOffset(p)), p.y + (t - DownOffset(p)))
  {
    DownRightAt(rows, cols, p);
    var q := Pos(p.x + k - 1, p.y + k - 1);
    assert DownIndex(q, cols) == DownIndex(p, cols) && DownOffset(q) == DownOffset(p) + k - 1;
    DownRightAt(rows, cols, q);
    forall t | DownOffset(p) <= t < DownOffset(p) + k
      ensures DiagonalLine(rows, cols, DownIndex(p, cols))[t] == Pos(p.x + (t - DownOffset(p)), p.y + (t - DownOffset(p)))
    {
      var r := Pos(p.x + (t - DownOffset(p)), p.y + (t - DownOffset(p)));
      assert DownIndex(r, cols) == DownIndex(p, cols) && DownOffset(r) == t;
      DownRightAt(rows, cols, r);
    }
  }

  /** The k squares from p up-right are consecutive in p's up-right diagonal. */
  lemma UpRightConsecutive(rows: nat, cols: nat, p: Pos, k: nat)
    requires InRange(p, rows, cols) && 1 <= k <= p.x + 1 && InRange(Pos(p.x - (k - 1), p.y + k - 1), rows, cols)
    ensures FamilySize(rows, cols) <= UpIndex(p, rows, cols) < 2 * FamilySize(rows, cols)
    ensures UpOffset(p, rows) + k <= |DiagonalLine(rows, cols, UpIndex(p, rows, cols))|
    ensures forall t :: UpOffset(p, rows) <= t < UpOffset(p, rows) + k ==>
              DiagonalLine(rows, cols, UpIndex(p, rows, cols))[t] == Pos(p.x - (t - UpOffset(p, rows)), p.y + (t - UpOffset(p, rows)))
  {
    UpRightAt(rows, cols, p);
    var q := Pos(p.x - (k - 1), p.y + k - 1);
    assert UpIndex(q, rows, cols) == UpIndex(p, rows, cols) && UpOffset(q, rows) == UpOffset(p, rows) + k - 1;
    UpRightAt(rows, cols, q);
    forall t | UpOffset(p, rows) <= t < UpOffset(p, rows) + k
      ensures DiagonalLine(rows, cols, UpIndex(p, rows, cols))[t] == Pos(p.x - (t - UpOffset(p, rows)), p.y + (t - UpOffset(p, rows)))
    {
      var r := Pos(p.x - (t - UpOffset(p, rows)), p.y + (t - UpOffset(p, rows)));
      assert UpIndex(r, rows, cols) == UpIndex(p, rows, cols) && UpOffset(r, rows) == t;
      UpRightAt(rows, cols, r);
    }
  }

  lemma DownRightRun(g: Grid, rows: nat, cols: nat, p: Pos, k: nat, c: Cell)
    requires IsGrid(g, rows, cols) && k >= 1 && InRange(p, rows, cols)
    requires StraightRun(g, rows, cols, p, DownRight, k, c)
    ensures rows + cols + DownIndex(p, cols) < |AllLines(g, rows, cols)|
    ensures HasRun(AllLines(g, rows, cols)[rows + cols + DownIndex(p, cols)], c, k)
  {
    var d, off := DownIndex(p, cols), DownOffset(p);
    assert Along(p, DownRight, k - 1) == (p.x + k - 1, p.y + k - 1);
    DownRightConsecutive(rows, cols, p, k);
    var ps := DiagonalLine(rows, cols, d);
    forall t | off <= t < off + k ensures g[ps[t].x][ps[t].y] == c {
      assert Along(p, DownRight, t - off) == (ps[t].x, ps[t].y);
    }
    CellsRun(g, rows, cols, ps, off, k, c);
    DiagonalInAllLines(g, rows, cols, d);
  }

  lemma UpRightRun(g: Grid, rows: nat, cols: nat, p: Pos, k: nat, c: Cell)
    requires IsGrid(g, rows, cols) && k >= 1 && InRange(p, rows, cols)
    requires StraightRun(g, rows, cols, p, UpRight, k, c)
    ensures rows + cols + UpIndex(p, rows, cols) < |AllLines(g, rows, cols)|
    ensures HasRun(AllLines(g, rows, cols)[rows + cols + UpIndex(p, rows, cols)], c, k)
  {
    var d, off := UpIndex(p, rows, cols), UpOffset(p, rows);
    assert Along(p, UpRight, k - 1) == (p.x - (k - 1), p.y + k - 1);
    UpRightConsecutive(rows, cols, p, k);
    var ps := DiagonalLine(rows, cols, d);
    forall t | off <= t < off + k ensures g[ps[t].x][ps[t].y] == c {
      assert Along(p, UpRight, t - off) == (ps[t].x, ps[t].y);
    }
    CellsRun(g, rows, cols, ps, off, k, c);
    DiagonalInAllLines(g, rows, cols, d);
  }

  /** k equal marks in a straight line make get_winner report a win, even
      when they fill the last empty square. */
  lemma StraightRunWins(g: Grid, rows: nat, cols: nat, p: Pos, dir: Direction, k: nat, c: Cell)
    requires IsGrid(g, rows, cols) && k >= 1 && c != Empty
    requires StraightRun(g, rows, cols, p, dir, k, c)
    ensures Winner(g, rows, cols, k) in {XWins, OWins}
  {
    StraightRunIsScanned(g, rows, cols, p, dir, k, c);
    WinnerMeaning(g, rows, cols, k);
  }

  /** Some straight line of the board, in one of the four directions, holds k copies of c. */
  ghost predicate BoardRun(g: Grid, rows: nat, cols: nat, c: Cell, k: nat)
    requires IsGrid(g, rows, cols)
  {
    exists p: Pos, dir: Direction :: StraightRun(g, rows, cols, p, dir, k, c)
  }

  /** A run in row l is k equal marks across the board from (l, i). */
  lemma RowRunIsStraight(g: Grid, rows: nat, cols: nat, l: nat, c: Cell, k: nat, i: nat)
    requires IsGrid(g, rows, cols) && l < rows && RunAt(g[l], c, k, i)
    ensures StraightRun(g, rows, cols, Pos(l, i), Across, k, c)
    ensures BoardRun(g, rows, cols, c, k)
  {
    forall t | 0 <= t < k ensures Along(Pos(l, i), Across, t) == (l, i + t) {}
  }

  /** A run in column y is k equal marks down the board from (i, y). */
  lemma ColumnRunIsStraight(g: Grid, rows: nat, cols: nat, y: nat, c: Cell, k: nat, i: nat)
    requires IsGrid(g, rows, cols) && y < cols && RunAt(Transpose(g, rows, cols)[y], c, k, i)
    ensures StraightRun(g, rows, cols, Pos(i, y), Down, k, c)
    ensures BoardRun(g, rows, cols, c, k)
  {
    TransposeInvolution(g, rows, cols);
    forall t | 0 <= t < k ensures Along(Pos(i, y), Down, t) == (i + t, y) {}
  }

  /** A run in diagonal d of AllLines, a down-right one, is k equal marks
      stepping down-right from the square where the run starts. */
  lemma DownRightDiagonalRun(g: Grid, rows: nat, cols: nat, d: nat, c: Cell, k: nat, i: nat)
    requires IsGrid(g, rows, cols) && d < FamilySize(rows, cols) && k >= 1
    requires RunAt(AllLines(g, rows, cols)[rows + cols + d], c, k, i)
    ensures i < |DiagonalLine(rows, cols, d)|
    ensures StraightRun(g, rows, cols, DiagonalLine(rows, cols, d)[i], DownRight, k, c)
    ensures BoardRun(g, rows, cols, c, k)
  {
    DiagonalInAllLines(g, rows, cols, d);
    var ps := DiagonalLine(rows, cols, d);
    var cells := CellsOf(g, rows, cols, ps);
    DownRightSteps(rows, cols, d);
    forall t | 0 <= t < k
      ensures Along(ps[i], DownRight, t) == (ps[i + t].x, ps[i + t].y)
      ensures g[ps[i + t].x][ps[i + t].y] == c
    {
      assert cells[i + t] == c;
    }
    assert StraightRun(g, rows, cols, ps[i], DownRight, k, c);
  }

  /** A run in diagonal d of AllLines, an up-right one, is k equal marks
      stepping up-right from the square where the run starts. */
  lemma UpRightDiagonalRun(g: Grid, rows: nat, cols: nat, d: nat, c: Cell, k: nat, i: nat)
    requires IsGrid(g, rows, cols) && FamilySize(rows, cols) <= d < 2 * FamilySize(rows, cols) && k >= 1
    requires RunAt(AllLines(g, rows, cols)[rows + cols + d], c, k, i)
    ensures i < |DiagonalLine(rows, cols, d)|
    ensures StraightRun(g, rows, cols, DiagonalLine(rows, cols, d)[i], UpRight, k, c)
    ensures BoardRun(g, rows, cols, c, k)
  {
    DiagonalInAllLines(g, rows, cols, d);
    var ps := DiagonalLine(rows, cols, d);
    var cells := CellsOf(g, rows, cols, ps);
    UpRightSteps(rows, cols, d);
    forall t | 0 <= t < k
      ensures Along(ps[i], UpRight, t) == (ps[i + t].x, ps[i + t].y)
      ensures g[ps[i + t].x][ps[i + t].y] == c
    {
      assert cells[i + t] == c;
    }
    assert StraightRun(g, rows, cols, ps[i], UpRight, k, c);
  }

  /** Line l of AllLines is row l or column l - rows when l < rows + cols. */
  lemma LineOfAllLines(g: Grid, rows: nat, cols: nat, l: nat)
    requires IsGrid(g, rows, cols) && l < rows + cols
    ensures l < rows ==> AllLines(g, rows, cols)[l] == g[l]
    ensures rows <= l ==> AllLines(g, rows, cols)[l] == Transpose(g, rows, cols)[l - rows]
  {
  }

  /** Converse of StraightRunIsScanned: a run in any line get_winner scans
      is k equal marks along a straight line of the board. */
  lemma ScannedRunIsStraight(g: Grid, rows: nat, cols: nat, l: nat, c: Cell, k: nat)
    requires IsGrid(g, rows, cols) && l < |AllLines(g, rows, cols)|
    requires HasRun(AllLines(g, rows, cols)[l], c, k)
    ensures BoardRun(g, rows, cols, c, k)
  {
    if k == 0 {
      assert StraightRun(g, rows, cols, Pos(0, 0), Across, k, c);
      return;
    }
    var line := AllLines(g, rows, cols)[l];
    var i: nat :| i <= |line| && RunAt(line, c, k, i);
    if l < rows {
      LineOfAllLines(g, rows, cols, l);
      RowRunIsStraight(g, rows, cols, l, c, k, i);
    } else if l < rows + cols {
      LineOfAllLines(g, rows, cols, l);
      ColumnRunIsStraight(g, rows, cols, l - rows, c, k, i);
    } else if l < rows + cols + FamilySize(rows, cols) {
      DownRightDiagonalRun(g, rows, cols, l - rows - cols, c, k, i);
    } else {
      UpRightDiagonalRun(g, rows, cols, l - rows - cols, c, k, i);
    }
  }

  /** For k >= 1, the lines get_winner scans hold a run of c exactly when
      some straight line of the board does. */
  lemma ScannedIffBoardRun(g: Grid, rows: nat, cols: nat, c: Cell, k: nat)
    requires IsGrid(g, rows, cols) && k >= 1
    ensures AnyRun(AllLines(g, rows, cols), c, k) <==> BoardRun(g, rows, cols, c, k)
  {
    if AnyRun(AllLines(g, rows, cols), c, k) {
      var l :| 0 <= l < |AllLines(g, rows, cols)| && HasRun(AllLines(g, rows, cols)[l], c, k);
      ScannedRunIsStraight(g, rows, cols, l, c, k);
    }
    if BoardRun(g, rows, cols, c, k) {
      var p: Pos, dir: Direction :| StraightRun(g, rows, cols, p, dir, k, c);
      StraightRunIsScanned(g, rows, cols, p, dir, k, c);
    }
  }

  /** What get_winner reports, in terms of the board itself: 0 (1) only when
      k X (O) marks lie in a straight line; a win exactly when some symbol
      has k marks in a straight line; 2 exactly when none has and the board
      is full; -1 exactly when none has and a square is empty. */
  lemma WinnerOnBoard(g: Grid, rows: nat, cols: nat, k: nat)
    requires IsGrid(g, rows, cols) && k >= 1
    ensures Winner(g, rows, cols, k) == XWins ==> BoardRun(g, rows, cols, X, k)
    ensures Winner(g, rows, cols, k) == OWins ==> BoardRun(g, rows, cols, O, k)
    ensures Winner(g, rows, cols, k) in {XWins, OWins} <==>
              BoardRun(g, rows, cols, X, k) || BoardRun(g, rows, cols, O, k)
    ensures Winner(g, rows, cols, k) == Draw <==>
              !BoardRun(g, rows, cols, X, k) && !BoardRun(g, rows, cols, O, k) && Full(g, rows, cols)
    ensures Winner(g, rows, cols, k) == Ongoing <==>
              !BoardRun(g, rows, cols, X, k) && !BoardRun(g, rows, cols, O, k) && !Full(g, rows, cols)
  {
    WinnerMeaning(g, rows, cols, k);
    ScannedIffBoardRun(g, rows, cols, X, k);
    ScannedIffBoardRun(g, rows, cols, O, k);
  }
}
