/**
  The 3×3 board of the newspaper tic-tac-toe game and the pure tests the game
  runs on it: which of the eight fixed lines is won, which won line comes first
  in table order, whether the board is full, and how many cells hold a mark.
 */
module Board {

  /** The two players; the game spells their marks "X" and "O". */
  datatype Player = X | O

  /** The content of one cell: "" while free, otherwise the mark of a player. */
  datatype Mark = Empty | Taken(owner: Player)

  datatype Option<T> = None | Some(value: T)

  /** Cells are numbered 0 to 8, row by row. */
  type Cell = i: nat | i < 9

  /** A board always has exactly nine cells. */
  type Board = b: seq<Mark> | |b| == 9
    witness [Empty, Empty, Empty, Empty, Empty, Empty, Empty, Empty, Empty]

  /** The board every game starts from. */
  const EmptyBoard: Board := seq(9, _ => Empty)

  /** A winning line: three cells that win when they hold the same mark. */
  type Line = (Cell, Cell, Cell)

  /** The fixed table of winning lines: rows, then columns, then diagonals. */
  const WinningConditions: seq<Line> := [
    (0, 1, 2), (3, 4, 5), (6, 7, 8),
    (0, 3, 6), (1, 4, 7), (2, 5, 8),
    (0, 4, 8), (2, 4, 6)
  ]

  /** The player whose turn follows p's. */
  function Other(p: Player): (q: Player)
    ensures q != p
  {
    if p == X then O else X
  }

  /** True when c is one of the three cells of line k. */
  predicate OnLine(k: nat, c: Cell)
    requires k < |WinningConditions|
  {
    c == WinningConditions[k].0 || c == WinningConditions[k].1 || c == WinningConditions[k].2
  }

  /** All three cells of the line hold p's mark. */
  predicate Three(board: Board, line: Line, p: Player)
  {
    board[line.0] == Taken(p) && board[line.1] == Taken(p) && board[line.2] == Taken(p)
  }

  /**
    The table holds the three rows top to bottom, the three columns left to
    right and then the two diagonals. Every entry is three distinct cells in
    a straight line, listed from the lowest, with an equal step between them:
    1 along a row, 3 down a column, 4 and 2 along the diagonals.
   */
  lemma WinningConditionsLayout()
    ensures |WinningConditions| == 8
    ensures forall k | 0 <= k < |WinningConditions| ::
      WinningConditions[k].0 < WinningConditions[k].1 < WinningConditions[k].2 &&
      WinningConditions[k].1 - WinningConditions[k].0 == WinningConditions[k].2 - WinningConditions[k].1
    ensures forall r | 0 <= r < 3 :: WinningConditions[r] == (3 * r, 3 * r + 1, 3 * r + 2)
    ensures forall k | 3 <= k < 6 :: WinningConditions[k] == (k - 3, k, k + 3)
    ensures WinningConditions[6] == (0, 4, 8) && WinningConditions[7] == (2, 4, 6)
  {
  }

  /**
    Line k of the table is won: none of its cells is free and all three
    hold the same mark.
   */
  predicate LineWon(board: Board, k: nat): (won: bool)
    requires k < |WinningConditions|
    ensures won <==> match board[WinningConditions[k].0]
                     case Empty => false
                     case Taken(p) => Three(board, WinningConditions[k], p)
  {
    var line := WinningConditions[k];
    board[line.0] != Empty && board[line.1] != Empty && board[line.2] != Empty &&
    board[line.0] == board[line.1] && board[line.1] == board[line.2]
  }

  /** No line of the table is won. */
  predicate NoWin(board: Board)
  {
    forall k | 0 <= k < |WinningConditions| :: !LineWon(board, k)
  }

  /**
    The first won line of the table at or after position `from`, in table
    order, or None when no line from there on is won.
   */
  function FirstWinningLine(board: Board, from: nat := 0): (r: Option<nat>)
    requires from <= |WinningConditions|
    decreases |WinningConditions| - from
    ensures r.Some? ==> from <= r.value < |WinningConditions| && LineWon(board, r.value)
    ensures r.Some? ==> forall j | from <= j < r.value :: !LineWon(board, j)
    ensures r.None? <==> forall j | from <= j < |WinningConditions| :: !LineWon(board, j)
  {
    if from == |WinningConditions| then None
    else if LineWon(board, from) then Some(from)
    else FirstWinningLine(board, from + 1)
  }

  /** The board is full: no cell is free. */
  function Full(board: Board): (full: bool)
    ensures full <==> forall i | 0 <= i < |board| :: board[i] != Empty
  {
    Empty !in board
  }

  /** The number of cells of s that hold m. */
  function CountOf(s: seq<Mark>, m: Mark): nat
  {
    if s == [] then 0 else (if s[0] == m then 1 else 0) + CountOf(s[1..], m)
  }

  /** Every cell is free, marked X or marked O, so the three counts add up to the size. */
  lemma {:induction false} CountsPartition(s: seq<Mark>)
    ensures CountOf(s, Empty) + CountOf(s, Taken(X)) + CountOf(s, Taken(O)) == |s|
  {
    if s != [] {
      CountsPartition(s[1..]);
      match s[0]
      case Empty =>
      case Taken(p) => assert p == X || p == O;
    }
  }

  /** A mark that does not occur is counted zero times. */
  lemma {:induction false} CountOfAbsent(s: seq<Mark>, m: Mark)
    requires m !in s
    ensures CountOf(s, m) == 0
  {
    if s != [] {
      assert m !in s[1..];
      CountOfAbsent(s[1..], m);
    }
  }

  /**
    Marking a free cell for p adds one to p's count, takes one from the free
    count and leaves the other player's count alone.
   */
  lemma {:induction false} CountAfterMove(s: seq<Mark>, i: nat, p: Player, m: Mark)
    requires i < |s| && s[i] == Empty
    ensures CountOf(s[i := Taken(p)], m) ==
            CountOf(s, m) + (if m == Taken(p) then 1 else 0) - (if m == Empty then 1 else 0)
  {
    var t := s[i := Taken(p)];
    if i == 0 {
      assert t[1..] == s[1..];
    } else {
      assert t[1..] == s[1..][i - 1 := Taken(p)];
      CountAfterMove(s[1..], i - 1, p, m);
    }
  }

  /**
    On a board where no line is won, marking a free cell for p can only win
    lines that pass through that cell, and every line it wins is p's.
   */
  lemma NewWinIsMovers(board: Board, i: Cell, p: Player, k: nat)
    requires NoWin(board) && board[i] == Empty
    requires k < |WinningConditions| && LineWon(board[i := Taken(p)], k)
    ensures OnLine(k, i)
    ensures board[i := Taken(p)][WinningConditions[k].0] == Taken(p)
  {
    assert !LineWon(board, k);
  }
}
