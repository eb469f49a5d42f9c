/**
 * The board evaluator of index.js: `checkWin` and `checkGameOver`, pure
 * functions over the 9-cell board. A cell holds `null`, "X" or "O"; here
 * `Empty`, `X` or `O`.
 */
module Board {

  datatype Cell = Empty | X | O

  /** A position on the 3x3 board, numbered row by row. */
  type CellIndex = i: int | 0 <= i < 9

  /** The 8 winning lines in the order `checkWin` scans them: rows, columns, diagonals. */
  const Patterns: seq<(CellIndex, CellIndex, CellIndex)> :=
    [(0, 1, 2), (3, 4, 5), (6, 7, 8),
     (0, 3, 6), (1, 4, 7), (2, 5, 8),
     (0, 4, 8), (2, 4, 6)]

  /** Line k is filled by one mark: its first cell is non-null and the other two equal it. */
  predicate Completes(b: seq<Cell>, k: nat)
    requires |b| == 9 && k < |Patterns|
  {
    var (p, q, r) := Patterns[k];
    b[p] != Empty && b[p] == b[q] && b[p] == b[r]
  }

  /** Mark m owns some completed line of b. */
  predicate HasLine(b: seq<Cell>, m: Cell)
    requires |b| == 9
  {
    exists k: nat :: k < |Patterns| && Completes(b, k) && b[Patterns[k].0] == m
  }

  /** Some pattern of b is completed, by either mark. */
  predicate AnyLine(b: seq<Cell>)
    requires |b| == 9
  {
    exists k: nat :: k < |Patterns| && Completes(b, k)
  }

  /** Every cell of b is occupied. */
  predicate Full(b: seq<Cell>)
  {
    forall i :: 0 <= i < |b| ==> b[i] != Empty
  }

  /**
   * The index of the first completed line at or after `from`, or 8 when
   * there is none: the early-returning scan of `checkWin`.
   */
  function FirstLine(b: seq<Cell>, from: nat): (k: nat)
    requires |b| == 9 && from <= |Patterns|
    ensures from <= k <= |Patterns|
    ensures k < |Patterns| ==> Completes(b, k)
    ensures forall j: nat :: from <= j < k ==> !Completes(b, j)
    decreases |Patterns| - from
  {
    if from == |Patterns| then from
    else if Completes(b, from) then from
    else FirstLine(b, from + 1)
  }

  /**
   * `checkWin`: the mark of the first completed line in pattern order,
   * `Empty` (null) when no line is completed.
   */
  function CheckWin(b: seq<Cell>): (w: Cell)
    requires |b| == 9
    ensures w == Empty <==> !AnyLine(b)
    ensures w != Empty ==>
      exists k: nat :: k < |Patterns| && Completes(b, k) && w == b[Patterns[k].0] &&
        forall j: nat :: j < k ==> !Completes(b, j)
  {
    var k := FirstLine(b, 0);
    if k < |Patterns| then b[Patterns[k].0] else Empty
  }

  /** `checkGameOver`: some line is completed, or no cell is null. */
  function CheckGameOver(b: seq<Cell>): (over: bool)
    requires |b| == 9
    ensures over <==> AnyLine(b) || Full(b)
  {
    if CheckWin(b) != Empty then true
    else Empty !in b
  }

  /** The board `Array(9).fill(null)`. */
  function EmptyBoard(): (b: seq<Cell>)
    ensures |b| == 9 && forall i :: 0 <= i < 9 ==> b[i] == Empty
  {
    seq(9, _ => Empty)
  }

  /** Whatever the tie-break, a winner reported by `checkWin` owns a completed line. */
  lemma WinnerOwnsLine(b: seq<Cell>)
    requires |b| == 9
    ensures CheckWin(b) != Empty ==> HasLine(b, CheckWin(b))
    ensures CheckWin(b) == Empty ==> !HasLine(b, X) && !HasLine(b, O)
  {
  }

  /**
   * The pattern order only matters when both marks own a line: if only m
   * does, `checkWin` reports m.
   */
  lemma SoleOwnerWins(b: seq<Cell>, m: Cell)
    requires |b| == 9 && m != Empty
    requires HasLine(b, m)
    requires forall other :: other != m && other != Empty ==> !HasLine(b, other)
    ensures CheckWin(b) == m
  {
    WinnerOwnsLine(b);
  }

  /** The board on which line k is filled with m and every other cell is null. */
  function LineBoard(k: nat, m: Cell): (b: seq<Cell>)
    requires k < |Patterns|
  {
    var (p, q, r) := Patterns[k];
    seq(9, i => if i == p || i == q || i == r then m else Empty)
  }

  /** Each of the 8 lines, filled uniformly with X or O on an otherwise empty board, wins for that mark. */
  lemma LineBoardWins(k: nat, m: Cell)
    requires k < |Patterns| && m != Empty
    ensures CheckWin(LineBoard(k, m)) == m
    ensures CheckGameOver(LineBoard(k, m))
  {
    var b := LineBoard(k, m);
    assert Completes(b, k);
    assert HasLine(b, m);
    SoleOwnerWins(b, m);
  }

  /** An all-null board has no winner and the game on it is not over. */
  lemma EmptyBoardOngoing()
    ensures CheckWin(EmptyBoard()) == Empty
    ensures !CheckGameOver(EmptyBoard())
  {
    var b := EmptyBoard();
    assert b[0] == Empty;
    forall k: nat | k < |Patterns| ensures !Completes(b, k) {
      assert b[Patterns[k].0] == Empty;
    }
  }

  /** When `checkGameOver` holds but `checkWin` is null, the board is full: a draw. */
  lemma GameOverWithoutWinnerIsDraw(b: seq<Cell>)
    requires |b| == 9
    requires CheckGameOver(b) && CheckWin(b) == Empty
    ensures Full(b)
  {
  }
}
