# Caro rule engine in Dafny

A model of the `Caro` class of `Caro_AI-main/caro.py`. It is the rule engine of an
N-in-a-row game (generalised tic-tac-toe / Gomoku) on a `rows x cols` grid.

The engine holds:
- a grid of `'.'`, `'X'` and `'O'` squares;
- the symbol to move (`XO`);
- a turn slot, 1 or 2;
- the history of played coordinates (`last_move`);
- the win length (`winning_condition`);
- the settings of a random opponent.

It places marks, lists the empty squares, extracts the rows, the columns and both diagonal
families, and decides the game: 0 if X won, 1 if O won, 2 for a draw, -1 otherwise.
Each diagonal family has rows + cols − 1 lines (cols when rows is 0), and each history
entry is a coordinate pair `(x, y)` without the symbol (caro.py:190).

The model has four modules, one file each:

- `board.dfy`, module `Board`: squares, coordinates and grids as values. It contains:
  - the empty squares in row-major order (`PossibleMoves`);
  - placing one mark (`Place`);
  - `HistoryOf`, the exact relation between a grid and its move history.
- `lines.dfy`, module `Lines`: the lines that win detection scans. It contains:
  - the transpose;
  - each diagonal as the list of coordinates it visits, in the order `get_all_diagonals` produces them;
  - the cells of those diagonals;
  - proofs that each family covers every square exactly once.
- `outcome.dfy`, module `Outcome`: the two counters of `check_consecutive` and the scan of `get_winner`,
  written as functions. Lemmas say what their results mean in terms of "some line holds k equal
  marks in a row". A run of k marks along any row, column or diagonal of the board is proved
  to be seen by the scan and, conversely, every run the scan sees is k marks in a straight line
  of the board, so the result is characterised on the board itself (`WinnerOnBoard`).
- `engine.dfy`, module `Engine`: the class `Caro`.
  - The grid is an `array2<Cell>` updated in place. A ghost field `board` mirrors it as a value.
  - `Valid()` is the game invariant: the history lists distinct coordinates, exactly the occupied
    squares, and possible moves plus history number `rows * cols`. Turn slot and symbol follow the
    parity of the history.
  - The constructor and `Reset` establish `Valid()`. `MakeMove`, `RandomAi` and the setters preserve it.
  - The query methods loop over the array as the Python code does. Each is proved equal to the
    function of `Board`, `Lines` or `Outcome` that specifies it.

## Model

| member | source | states |
|---|---|---|
| Board.Other | Caro_AI-main/caro.py:194-197 | the symbol after X is O and after O is X: never empty, never the same |
| Board.EmptyGrid | Caro_AI-main/caro.py:22 | a rows x cols grid whose every square is empty |
| Board.Place | Caro_AI-main/caro.py:189 | the played square holds the mark and every other square is unchanged |
| Board.PossibleMovesMembers | Caro_AI-main/caro.py:40-49 | a coordinate is listed exactly when it is on the board and its square is empty |
| Board.PossibleMovesOrdered | Caro_AI-main/caro.py:40-49 | the list is strictly increasing in row-major order, hence free of duplicates |
| Board.FullIffNoMoves | Caro_AI-main/caro.py:115-123 | the board is full exactly when the list of possible moves is empty |
| Board.EmptyGridMoves | Caro_AI-main/caro.py:19-29 | a new board offers all rows * cols squares |
| Board.PlaceRemovesOneMove | Caro_AI-main/caro.py:186-189 | filling one empty square removes exactly one possible move |
| Board.EmptyHistory | Caro_AI-main/caro.py:19-29 | an empty board with an empty history satisfies the history invariant |
| Board.PlaceExtendsHistory | Caro_AI-main/caro.py:186-191 | playing an empty square and appending its coordinates keeps the history distinct, equal to the occupied squares, and moves + history = rows * cols |
| Lines.Transpose | Caro_AI-main/caro.py:57-67 | the columns form a cols x rows grid |
| Lines.TransposeInvolution | Caro_AI-main/caro.py:57-67 | entry [y][x] of the columns is square (x, y), and transposing twice gives the grid back |
| Lines.DiagonalLine | Caro_AI-main/caro.py:69-113 | every coordinate a diagonal visits lies on the board |
| Lines.DownRightAt | Caro_AI-main/caro.py:75-92 | square p lies in down-right diagonal DownIndex(p) at position DownOffset(p) |
| Lines.DownRightCover | Caro_AI-main/caro.py:75-92 | every square appears in exactly one down-right diagonal, exactly once |
| Lines.UpRightAt | Caro_AI-main/caro.py:94-111 | square p lies in up-right diagonal UpIndex(p) at position UpOffset(p) |
| Lines.UpRightCover | Caro_AI-main/caro.py:94-111 | every square appears in exactly one up-right diagonal, exactly once |
| Lines.DownRightSteps | Caro_AI-main/caro.py:75-92 | a down-right diagonal is a straight line: its i-th square is i rows below and i columns right of its first |
| Lines.UpRightSteps | Caro_AI-main/caro.py:94-111 | an up-right diagonal is a straight line: its i-th square is i rows above and i columns right of its first |
| Lines.CellsOf | Caro_AI-main/caro.py:79-80 | reading a line of coordinates gives one cell per coordinate |
| Lines.Diagonals | Caro_AI-main/caro.py:69-113 | there are 2 * FamilySize diagonals |
| Lines.DiagonalCounts | Caro_AI-main/caro.py:76-92 | on a board with a row, each family has rows + cols - 1 diagonals, and the one from (0, y) has min(rows, cols - y) squares |
| Lines.DownFromTopCells | Caro_AI-main/caro.py:76-83 | the squares read from (0, y) stepping down-right are diagonal y |
| Lines.DownFromSideCells | Caro_AI-main/caro.py:85-92 | the squares read from (x, 0), x >= 1, stepping down-right are diagonal cols + x - 1 |
| Lines.UpFromBottomCells | Caro_AI-main/caro.py:95-102 | the squares read from (rows - 1, y) stepping up-right are diagonal FamilySize + y |
| Lines.UpFromSideCells | Caro_AI-main/caro.py:104-111 | the squares read from (x, 0), x < rows - 1, stepping up-right are diagonal FamilySize + cols + x |
| Outcome.Trailing | Caro_AI-main/caro.py:136-147 | a counter never exceeds the number of cells read |
| Outcome.TrailingRun | Caro_AI-main/caro.py:138-147 | a counter is at least n exactly when the last n cells read all hold its symbol |
| Outcome.HasRunIffEnds | Caro_AI-main/caro.py:138-153 | a line holds k equal marks in a row exactly when the counter reaches k on some cell |
| Outcome.FirstRunFromMeaning | Caro_AI-main/caro.py:138-153 | scanning from a cell finds no symbol exactly when no counter reaches k from there, and finds X (O) only where the X (O) counter reaches k |
| Outcome.FirstRunMeaning | Caro_AI-main/caro.py:135-153 | one line yields no winner exactly when it holds no run of k X and no run of k O; a reported symbol has such a run |
| Outcome.LinesWinnerMeaning | Caro_AI-main/caro.py:134-154 | check_consecutive returns 0, 1 or -1; -1 exactly when no line holds a run; 0 (1) only when some line holds a run of X (O) |
| Outcome.AllLines | Caro_AI-main/caro.py:156-158 | rows, columns and diagonals together: rows + cols + 2 * FamilySize lines |
| Outcome.ScanOrder | Caro_AI-main/caro.py:160-166 | a run in a row decides the result from the rows alone; a run in a column, with none in any row, decides it from the columns alone |
| Outcome.WinnerMeaning | Caro_AI-main/caro.py:156-175 | 0/1 only when some line holds k equal marks of that symbol; a win whenever some line does, even on a full board; 2 exactly when no line does and the board is full; -1 exactly when no line does and a square is empty |
| Outcome.SoleRunWins | Caro_AI-main/caro.py:156-170 | when only one symbol has a run anywhere, get_winner names that symbol |
| Outcome.AcrossRun | Caro_AI-main/caro.py:51-55 | k equal marks along a row form a run in that row's line |
| Outcome.DownRun | Caro_AI-main/caro.py:57-67 | k equal marks down a column form a run in that column's line |
| Outcome.DownRightConsecutive | Caro_AI-main/caro.py:75-92 | k squares stepping down-right from p sit at consecutive positions of p's down-right diagonal |
| Outcome.UpRightConsecutive | Caro_AI-main/caro.py:94-111 | k squares stepping up-right from p sit at consecutive positions of p's up-right diagonal |
| Outcome.DownRightRun | Caro_AI-main/caro.py:75-92 | k equal marks stepping down-right form a run in p's down-right diagonal line |
| Outcome.UpRightRun | Caro_AI-main/caro.py:94-111 | k equal marks stepping up-right form a run in p's up-right diagonal line |
| Outcome.StraightRunIsScanned | Caro_AI-main/caro.py:156-158 | k equal marks in any straight line of the board (across, down or either diagonal) show up as a run in a line get_winner scans |
| Outcome.StraightRunWins | Caro_AI-main/caro.py:156-175 | k equal marks in a straight line make get_winner report a win (0 or 1), even when the board is full |
| Outcome.RowRunIsStraight | Caro_AI-main/caro.py:51-55 | a run of k at position i of row l is k equal marks across the board from (l, i) |
| Outcome.ColumnRunIsStraight | Caro_AI-main/caro.py:57-67 | a run of k at position i of column y is k equal marks down the board from (i, y) |
| Outcome.DownRightDiagonalRun | Caro_AI-main/caro.py:75-92 | a run of k in a down-right diagonal is k equal marks stepping down-right on the board from the square where it starts |
| Outcome.UpRightDiagonalRun | Caro_AI-main/caro.py:94-111 | a run of k in an up-right diagonal is k equal marks stepping up-right on the board from the square where it starts |
| Outcome.LineOfAllLines | Caro_AI-main/caro.py:156-157 | the first rows scanned lines are the rows and the next cols are the columns |
| Outcome.ScannedRunIsStraight | Caro_AI-main/caro.py:156-158 | a run of k in any scanned line is k equal marks along a straight line of the board (converse of StraightRunIsScanned) |
| Outcome.ScannedIffBoardRun | Caro_AI-main/caro.py:156-158 | for k >= 1 the scanned lines hold a run of c exactly when some straight line of the board holds k marks c |
| Outcome.WinnerOnBoard | Caro_AI-main/caro.py:125-175 | in terms of the board itself: 0 (1) only when k X (O) marks lie in a straight line; a win exactly when some symbol has k marks in a straight line; 2 exactly when none has and the board is full; -1 exactly when none has and a square is empty |
| Engine.NewGrid | Caro_AI-main/caro.py:22 | a fresh rows x cols array of empty squares |
| Engine.Caro.Rows | Caro_AI-main/caro.py:51-55 | get_all_rows returns the grid's rows, which are the board |
| Engine.Caro.constructor | Caro_AI-main/caro.py:8-29 | empty grid, empty history, XO and originXO the starting symbol, turn 1, difficulty 2, opponent in slot 2 and off; the invariant holds |
| Engine.Caro.Reset | Caro_AI-main/caro.py:31-38 | empty grid, empty history, turn 1, XO back to originXO; difficulty, opponent slot and switch unchanged; the invariant holds |
| Engine.Caro.MakeMove | Caro_AI-main/caro.py:177-202 | on an occupied square nothing changes; on an empty one the old XO is written there and nowhere else, (x, y) is appended to the history, XO and turn flip; the invariant (history = occupied squares, moves + history = rows * cols, parities) is kept |
| Engine.Caro.GetPossibleMoves | Caro_AI-main/caro.py:40-49 | the result is PossibleMoves(board): exactly the empty squares, in row-major order |
| Engine.Caro.GetAllColumns | Caro_AI-main/caro.py:57-67 | cols lists of rows cells with columns[y][x] == square (x, y): the transpose |
| Engine.Caro.ReadDownRight | Caro_AI-main/caro.py:79-83 | the inner loop reads min(rows - x0, cols - y0) squares (x0 + i, y0 + i) |
| Engine.Caro.ReadUpRight | Caro_AI-main/caro.py:98-102 | the inner loop reads min(x0 + 1, cols - y0) squares (x0 - i, y0 + i) |
| Engine.Caro.DownRightDiagonals | Caro_AI-main/caro.py:75-92 | the first two loops produce the down-right family of Diagonals(board) |
| Engine.Caro.UpRightDiagonals | Caro_AI-main/caro.py:94-111 | the last two loops produce the up-right family of Diagonals(board) |
| Engine.Caro.GetAllDiagonals | Caro_AI-main/caro.py:69-113 | the result is Diagonals(board), whose coverage DownRightCover and UpRightCover state |
| Engine.Caro.IsTerminate | Caro_AI-main/caro.py:115-123 | true exactly when no square is empty, which is exactly when rows * cols moves have been made |
| Engine.Caro.CheckConsecutive | Caro_AI-main/caro.py:134-154 | the counter loop with early exit returns LinesWinner, whose meaning LinesWinnerMeaning states |
| Engine.Caro.GetWinner | Caro_AI-main/caro.py:125-175 | the result is one of 0, 1, 2, -1 and equals Winner(board), whose meaning WinnerMeaning and WinnerOnBoard state |
| Engine.Caro.ChangeHardAi | Caro_AI-main/caro.py:204-215 | difficulty 1 exactly for "easy", 3 exactly for "hard", 2 for every other label |
| Engine.Caro.UseAi | Caro_AI-main/caro.py:217-221 | the opponent switch takes the given value; the invariant holds |
| Engine.Caro.SetAiTurn | Caro_AI-main/caro.py:223-227 | the opponent's slot takes the given value; the invariant holds |
| Engine.Caro.RandomAi | Caro_AI-main/caro.py:229-238 | moves exactly when the opponent's slot is the current turn and a square is empty; then it plays possible move number pick mod their count, as MakeMove does; otherwise nothing changes |
| Engine.Caro.GetCurrentXOForAI | Caro_AI-main/caro.py:240-253 | slot 1 plays the starting symbol, slot 2 the other one, any other slot X |
| Engine.Caro.AiPlaysSymbolToMove | Caro_AI-main/caro.py:240-253 | in its own turn slot the opponent's symbol is the symbol to move |
| Engine.Caro.FullAfterAllMoves | Caro_AI-main/caro.py:115-123 | the board is full exactly when the history holds rows * cols moves |

## Left out

- The `pygame` import and the `__main__` stub (caro.py lines 2 and 256-258). They carry no logic.
- Engine.Caro.RandomAi: `random.choice` becomes a caller-supplied number `pick`, and the move played is possible move `pick % count`.
- Engine.Caro.RandomAi: with no empty square left in the opponent's turn, the model returns false and changes nothing. The source raises `IndexError` there.
- `hard_ai` and `is_use_ai` are stored and never read. `random_ai` does not consult `is_use_ai` in the source either.
- Engine.Caro.MakeMove: requires `0 <= x < rows` and `0 <= y < cols`. Python's negative-index wrap-around and its `IndexError` on larger indices are not modelled.
- Engine.Caro.constructor:
  - requires `winningCondition >= 1`. With 0, the source's `check_consecutive` returns on the first cell it reads (caro.py:136-153): 1 (an O win) when that cell is `'X'`, because the O counter is then 0, and 0 (an X win) when it is `'O'` or `'.'`, because the X counter is then 0.
  - requires a starting symbol of X or O. The source accepts any string, and its symbol flip turns anything other than `'X'` into `'X'`.
  - takes natural board sizes. Python builds an empty grid for negative sizes.
- Engine.Caro.CheckConsecutive: requires `winningCondition >= 1`, for the same reason as the constructor.
- Engine.Caro.GetCurrentXOForAI: requires a starting symbol of X or O, as the constructor does.
- Engine.Caro.Rows: returns the rows as a value. The source returns its own mutable list, which a caller could alias and modify.
- Squares are the datatype `Cell` rather than the strings `'.'`, `'X'` and `'O'`, so no other string can occupy a square.
