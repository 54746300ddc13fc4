/** The Caro game object: a rows x cols grid updated in place, the symbol to
    move, the turn slot, the move history and the settings of the random
    opponent. The ghost field board mirrors the grid as a value; queries loop
    over the grid as the game does and are proved equal to the functions of
    Board, Lines and Outcome on board. */
module Engine {
  import opened Board
  import opened Lines
  import opened Outcome

  /** One more move flips the parity of the move count. */
  lemma ParityFlips(n: nat)
    ensures (n + 1) % 2 == 1 - n % 2
  {
  }

  /** Extending a prefix by the next element. */
  lemma SliceStep<T>(s: seq<T>, m: nat)
    requires m < |s|
    ensures s[..m + 1] == s[..m] + [s[m]]
  {
  }

  /** A fresh rows x cols array of empty squares. */
  method NewGrid(rows: nat, cols: nat) returns (a: array2<Cell>)
    ensures fresh(a) && a.Length0 == rows && a.Length1 == cols
    ensures forall i, j :: 0 <= i < rows && 0 <= j < cols ==> a[i, j] == Empty
  {
    a := new Cell[rows, cols]((i, j) => Empty);
  }

  class Caro {
    const rows: nat
    const cols: nat
    /** Number of equal marks in a row that wins. */
    const winningCondition: int
    /** The symbol that moves first, restored by Reset. */
    const originXO: Cell

    var grid: array2<Cell>
    /** The contents of grid as its list of rows. */
    ghost var board: Grid
    /** The symbol to move. */
    var XO: Cell
    /** The coordinates played, oldest first. */
    var lastMove: seq<Pos>
    /** Opponent difficulty: 1 easy, 2 medium, 3 hard. Stored only. */
    var hardAi: int
    /** Turn slot, 1 or 2. */
    var turn: int
    /** The turn slot the random opponent plays in. */
    var aiTurn: int
    /** Whether the opponent is switched on. Stored only. */
    var isUseAi: bool

    /** grid is a rows x cols array holding exactly the squares of board. */
    ghost predicate Mirrors()
      reads this, grid
    {
      && grid.Length0 == rows && grid.Length1 == cols
      && IsGrid(board, rows, cols)
      && (forall i, j :: 0 <= i < rows && 0 <= j < cols ==> grid[i, j] == board[i][j])
    }

    /** The game invariant. Besides the shape and the settings, it ties the
        history to the board: the history lists distinct coordinates, exactly
        the occupied squares, so that possible moves and history together
        number rows * cols; the turn slot is 1 after an even number of moves
        and 2 after an odd number, and the symbol to move is the first one
        exactly in slot 1. */
    ghost predicate Valid()
      reads this, grid
    {
      && Mirrors()
      && winningCondition >= 1
      && originXO != Empty && XO != Empty
      && 1 <= hardAi <= 3
      && turn == 1 + |lastMove| % 2
      && (XO == originXO <==> turn == 1)
      && HistoryOf(board, rows, cols, lastMove)
    }

    /** The grid as its list of rows (get_all_rows). */
    function Rows(): (g: Grid)
      requires Mirrors()
      reads this, grid
      ensures g == board
    {
      var a := grid;
      var g := seq(a.Length0, i requires 0 <= i < a.Length0 reads a =>
                 seq(a.Length1, j requires 0 <= j < a.Length1 reads a => a[i, j]));
      GridsEqual(g, board, rows, cols);
      g
    }

    constructor (rows: nat, cols: nat, winningCondition: int := 5, xo: Cell := X)
      requires winningCondition >= 1 && xo != Empty
      ensures Valid() && fresh(grid)
      ensures this.rows == rows && this.cols == cols && this.winningCondition == winningCondition
      ensures originXO == xo && XO == xo
      ensures board == EmptyGrid(rows, cols) && lastMove == []
      ensures hardAi == 2 && turn == 1 && aiTurn == 2 && !isUseAi
    {
      this.originXO := xo;
      this.rows := rows;
      this.cols := cols;
      var empty := NewGrid(rows, cols);
      grid := empty;
      board := EmptyGrid(rows, cols);
      this.winningCondition := winningCondition;
      XO := xo;
      lastMove := [];
      hardAi := 2;
      turn := 1;
      aiTurn := 2;
      isUseAi := false;
      new;
      EmptyHistory(rows, cols);
    }

    /** Back to an empty board with the first symbol to move; the settings stay. */
    method Reset()
      requires Valid()
      modifies this`grid, this`board, this`lastMove, this`turn, this`XO
      ensures Valid() && fresh(grid)
      ensures board == EmptyGrid(rows, cols) && lastMove == []
      ensures turn == 1 && XO == originXO
      ensures hardAi == old(hardAi) && aiTurn == old(aiTurn) && isUseAi == old(isUseAi)
    {
      grid := NewGrid(rows, cols);
      board := EmptyGrid(rows, cols);
      lastMove := [];
      turn := 1;
      XO := originXO;
      EmptyHistory(rows, cols);
    }

    /** Writes the symbol to move at (x, y), records (x, y) and passes the
        turn; does nothing at all when (x, y) is occupied. */
    method MakeMove(x: nat, y: nat)
      requires Valid() && x < rows && y < cols
      modifies this`XO, this`turn, this`lastMove, this`board, grid
      ensures Valid()
      ensures old(board[x][y]) != Empty ==>
                board == old(board) && lastMove == old(lastMove) && XO == old(XO) && turn == old(turn)
      ensures old(board[x][y]) == Empty ==>
                && board == Place(old(board), rows, cols, Pos(x, y), old(XO))
                && lastMove == old(lastMove) + [Pos(x, y)]
                && XO == Other(old(XO))
                && turn == (if old(turn) == 1 then 2 else 1)
    {
      if grid[x, y] != Empty {
        return;
      }
      var move := Pos(x, y);
      PlaceExtendsHistory(board, rows, cols, lastMove, move, XO);
      ParityFlips(|lastMove|);
      grid[x, y] := XO;
      board := Place(board, rows, cols, move, XO);
      lastMove := lastMove + [move];
      if XO == X {
        XO := O;
      } else {
        XO := X;
      }
      if turn == 1 {
        turn := 2;
      } else {
        turn := 1;
      }
      assert old(board[x][y]) == Empty;
    }

    /** The empty squares, row by row and column by column (get_possible_moves). */
    method GetPossibleMoves() returns (moves: seq<Pos>)
      requires Mirrors()
      ensures moves == PossibleMoves(board)
      ensures forall p :: p in moves <==> InRange(p, rows, cols) && board[p.x][p.y] == Empty
      ensures RowMajor(moves)
    {
      moves := [];
      for x := 0 to rows
        invariant moves == EmptiesUpTo(board, x)
      {
        for y := 0 to cols
          invariant moves == EmptiesUpTo(board, x) + RowEmpties(board[x], x, y)
        {
          if grid[x, y] == Empty {
            moves := moves + [Pos(x, y)];
          }
        }
      }
      PossibleMovesMembers(board, rows, cols);
      PossibleMovesOrdered(board, rows, cols);
    }

    /** The columns, each read top to bottom (get_all_colummns). */
    method GetAllColumns() returns (columns: seq<seq<Cell>>)
      requires Mirrors()
      ensures columns == Transpose(board, rows, cols)
      ensures |columns| == cols
      ensures forall y, x :: 0 <= y < cols && 0 <= x < rows ==> |columns[y]| == rows && columns[y][x] == board[x][y]
    {
      TransposeInvolution(board, rows, cols);
      ghost var t := Transpose(board, rows, cols);
      columns := [];
      for y := 0 to cols
        invariant |columns| == y
        invariant forall j :: 0 <= j < y ==> columns[j] == t[j]
      {
        var col := [];
        for x := 0 to rows
          invariant |col| == x
          invariant forall i :: 0 <= i < x ==> col[i] == board[i][y]
        {
          col := col + [grid[x, y]];
        }
        columns := columns + [col];
      }
    }

    /** The inner loop of get_all_diagonals for the down-right family: the
        squares from (x0, y0) stepping one row down and one column right
        while both stay on the board. */
    method ReadDownRight(x0: nat, y0: nat) returns (diagonal: seq<Cell>)
      requires Mirrors() && x0 <= rows && y0 <= cols
      ensures |diagonal| == Min(rows - x0, cols - y0)
      ensures forall i :: 0 <= i < |diagonal| ==> diagonal[i] == board[x0 + i][y0 + i]
    {
      diagonal := [];
      var x, y := x0, y0;
      while x < rows && y < cols
        invariant x0 <= x <= rows && y0 <= y <= cols && x - x0 == y - y0 == |diagonal|
        invariant forall i :: 0 <= i < |diagonal| ==> diagonal[i] == board[x0 + i][y0 + i]
      {
        diagonal := diagonal + [grid[x, y]];
        x := x + 1;
        y := y + 1;
      }
    }

    /** The inner loop of get_all_diagonals for the up-right family: the
        squares from (x0, y0) stepping one row up and one column right
        while both stay on the board. */
    method ReadUpRight(x0: int, y0: nat) returns (diagonal: seq<Cell>)
      requires Mirrors() && -1 <= x0 < rows && y0 <= cols
      ensures |diagonal| == Min(x0 + 1, cols - y0)
      ensures forall i :: 0 <= i < |diagonal| ==> diagonal[i] == board[x0 - i][y0 + i]
    {
      diagonal := [];
      var x, y := x0, y0;
      while x >= 0 && y < cols
        invariant -1 <= x <= x0 && y0 <= y <= cols && x0 - x == y - y0 == |diagonal|
        invariant forall i :: 0 <= i < |diagonal| ==> diagonal[i] == board[x0 - i][y0 + i]
      {
        diagonal := diagonal + [grid[x, y]];
        x := x - 1;
        y := y + 1;
      }
    }

    /** The first half of get_all_diagonals: down-right from each square of
        row 0, then from each square of column 0 below row 0. */
    method DownRightDiagonals() returns (diagonals: seq<seq<Cell>>)
      requires Mirrors()
      ensures diagonals == Diagonals(board, rows, cols)[..FamilySize(rows, cols)]
    {
      ghost var all := Diagonals(board, rows, cols);
      diagonals := [];
      for y0 := 0 to cols
        invariant diagonals == all[..y0]
      {
        var diagonal := ReadDownRight(0, y0);
        DownFromTopCells(board, rows, cols, y0, diagonal);
        SliceStep(all, y0);
        diagonals := diagonals + [diagonal];
      }
      var x0 := 1;
      while x0 < rows
        invariant 1 <= x0 <= rows || (rows == 0 && x0 == 1)
        invariant diagonals == all[..cols + x0 - 1]
      {
        var diagonal := ReadDownRight(x0, 0);
        DownFromSideCells(board, rows, cols, x0, diagonal);
        SliceStep(all, cols + x0 - 1);
        diagonals := diagonals + [diagonal];
        x0 := x0 + 1;
      }
    }

    /** The second half of get_all_diagonals: up-right from each square of
        the last row, then from each square of column 0 above the last row. */
    method UpRightDiagonals() returns (diagonals: seq<seq<Cell>>)
      requires Mirrors()
      ensures diagonals == Diagonals(board, rows, cols)[FamilySize(rows, cols)..]
    {
      ghost var n := FamilySize(rows, cols);
      ghost var up := Diagonals(board, rows, cols)[n..];
      diagonals := [];
      for y0 := 0 to cols
        invariant diagonals == up[..y0]
      {
        var diagonal := ReadUpRight(rows - 1, y0);
        UpFromBottomCells(board, rows, cols, y0, diagonal);
        SliceStep(up, y0);
        diagonals := diagonals + [diagonal];
      }
      var x0 := 0;
      while x0 < rows - 1
        invariant x0 <= SideStarts(rows)
        invariant diagonals == up[..cols + x0]
      {
        var diagonal := ReadUpRight(x0, 0);
        UpFromSideCells(board, rows, cols, x0, diagonal);
        SliceStep(up, cols + x0);
        diagonals := diagonals + [diagonal];
        x0 := x0 + 1;
      }
      assert up[..cols + x0] == up;
    }

    /** Every diagonal, as get_all_diagonals lists them: the down-right
        family, then the up-right family. */
    method GetAllDiagonals() returns (diagonals: seq<seq<Cell>>)
      requires Mirrors()
      ensures diagonals == Diagonals(board, rows, cols)
    {
      var downRight := DownRightDiagonals();
      var upRight := UpRightDiagonals();
      diagonals := downRight + upRight;
      ghost var all := Diagonals(board, rows, cols);
      assert all == all[..FamilySize(rows, cols)] + all[FamilySize(rows, cols)..];
    }

    /** True when no square is empty (is_terminate). */
    method IsTerminate() returns (full: bool)
      requires Valid()
      ensures full == Full(board, rows, cols)
      ensures full <==> |lastMove| == rows * cols
    {
      FullIffNoMoves(board, rows, cols);
      for x := 0 to rows
        invariant forall i, j :: 0 <= i < x && 0 <= j < cols ==> board[i][j] != Empty
      {
        for y := 0 to cols
          invariant forall j :: 0 <= j < y ==> board[x][j] != Empty
        {
          if grid[x, y] == Empty {
            return false;
          }
        }
      }
      return true;
    }

    /** check_consecutive: reads each line keeping the length of the current
        run of X and of O, and stops at the first that reaches winningCondition. */
    method CheckConsecutive(cons: seq<seq<Cell>>) returns (w: int)
      requires winningCondition >= 1
      ensures w == LinesWinner(cons, winningCondition)
    {
      var k: nat := winningCondition;
      for i := 0 to |cons|
        invariant LinesWinner(cons[i..], k) == LinesWinner(cons, k)
      {
        var con := cons[i];
        var countX, countO := 0, 0;
        for j := 0 to |con|
          invariant countX == Trailing(con[..j], X) && countO == Trailing(con[..j], O)
          invariant countX < k && countO < k
          invariant FirstRunFrom(con, k, j) == FirstRunFrom(con, k, 0)
        {
          var c := con[j];
          if c == X {
            countX := countX + 1;
            countO := 0;
          } else if c == O {
            countO := countO + 1;
            countX := 0;
          } else {
            countX := 0;
            countO := 0;
          }
          assert con[..j + 1][..j] == con[..j];
          if countX == k {
            return XWins;
          }
          if countO == k {
            return OWins;
          }
        }
        assert cons[i..][1..] == cons[i + 1..];
      }
      return Ongoing;
    }

    /** 0 when X has won, 1 when O has, 2 for a draw, -1 while the game goes on (get_winner). */
    method GetWinner() returns (w: int)
      requires Valid()
      ensures w == Winner(board, rows, cols, winningCondition)
      ensures w in {XWins, OWins, Draw, Ongoing}
    {
      WinnerMeaning(board, rows, cols, winningCondition);
      var rowLines := Rows();
      var colLines := GetAllColumns();
      var diagonals := GetAllDiagonals();

      w := CheckConsecutive(rowLines);
      if w != Ongoing {
        return w;
      }
      w := CheckConsecutive(colLines);
      if w != Ongoing {
        return w;
      }
      w := CheckConsecutive(diagonals);
      if w != Ongoing {
        return w;
      }
      var full := IsTerminate();
      if full {
        return Draw;
      }
      return Ongoing;
    }

    /** Sets the opponent difficulty from its label; an unknown label means medium. */
    method ChangeHardAi(hard: string)
      requires Valid()
      modifies this`hardAi
      ensures Valid()
      ensures hardAi == 1 <==> hard == "easy"
      ensures hardAi == 3 <==> hard == "hard"
      ensures hardAi == 2 <==> hard != "easy" && hard != "hard"
    {
      if hard == "easy" {
        hardAi := 1;
      } else if hard == "hard" {
        hardAi := 3;
      } else if hard == "medium" {
        hardAi := 2;
      } else {
        hardAi := 2;
      }
    }

    /** Switches the opponent on or off. */
    method UseAi(isTrue: bool)
      requires Valid()
      modifies this`isUseAi
      ensures Valid() && isUseAi == isTrue
    {
      isUseAi := isTrue;
    }

    /** Chooses the turn slot the opponent plays in. */
    method SetAiTurn(t: int)
      requires Valid()
      modifies this`aiTurn
      ensures Valid() && aiTurn == t
    {
      aiTurn := t;
    }

    /** The opponent's move (random_ai). In its turn slot it plays the
        possible move at index pick modulo their number and answers true;
        out of its slot, or with no square left, it changes nothing and
        answers false. */
    method RandomAi(pick: nat) returns (moved: bool)
      requires Valid()
      modifies this`XO, this`turn, this`lastMove, this`board, grid
      ensures Valid()
      ensures moved <==> aiTurn == old(turn) && old(PossibleMoves(board)) != []
      ensures !moved ==> board == old(board) && lastMove == old(lastMove) && XO == old(XO) && turn == old(turn)
      ensures moved ==>
                var moves := old(PossibleMoves(board));
                var p := moves[pick % |moves|];
                && InRange(p, rows, cols)
                && old(board)[p.x][p.y] == Empty
                && board == Place(old(board), rows, cols, p, old(XO))
                && lastMove == old(lastMove) + [p]
                && XO == Other(old(XO))
                && turn == (if old(turn) == 1 then 2 else 1)
    {
      if aiTurn == turn {
        var possibleMoves := GetPossibleMoves();
        if |possibleMoves| == 0 {
          // random.choice raises IndexError on an empty list
          return false;
        }
        var move := possibleMoves[pick % |possibleMoves|];
        assert move in possibleMoves;
        MakeMove(move.x, move.y);
        return true;
      }
      return false;
    }

    /** The symbol the opponent plays (get_current_XO_for_AI): the first
        symbol in slot 1, the other one in slot 2, and X for any other slot. */
    function GetCurrentXOForAI(): (s: Cell)
      requires originXO != Empty
      reads this
      ensures aiTurn == 1 ==> s == originXO
      ensures aiTurn == 2 ==> s == Other(originXO)
      ensures aiTurn != 1 && aiTurn != 2 ==> s == X
    {
      if originXO == X then
        if aiTurn == 2 then O else X
      else
        assert originXO.O?;
        if aiTurn == 1 then O else X
    }

    /** In the opponent's own turn slot its symbol is the symbol to move. */
    lemma AiPlaysSymbolToMove()
      requires Valid() && turn == aiTurn
      ensures GetCurrentXOForAI() == XO
    {
    }

    /** The board is full exactly when rows * cols moves have been made. */
    lemma FullAfterAllMoves()
      requires Valid()
      ensures Full(board, rows, cols) <==> |lastMove| == rows * cols
    {
      FullIffNoMoves(board, rows, cols);
    }
  }
}
