/**
 * Cells, boards and winner detection of the tic-tac-toe app:
 * `calculateWinner` and the victory-highlight rule of `Board.renderSquare`.
 */
module TicTacToe {

  datatype Option<T> = None | Some(value: T)

  /** One square: JavaScript `null`, 'X' or 'O'. */
  datatype Cell = Empty | X | O

  /** Nine squares in row-major order: index = row * 3 + col. */
  type Board = b: seq<Cell> | |b| == 9 witness [Empty, Empty, Empty, Empty, Empty, Empty, Empty, Empty, Empty]

  /** `Array(9).fill(null)`. */
  const EmptyBoard: Board := [Empty, Empty, Empty, Empty, Empty, Empty, Empty, Empty, Empty]

  /** A list of square indices, the shape of `victoryLine` and of a winning line. */
  type Line = seq<nat>

  /** The eight triples `calculateWinner` scans, in its order. */
  const Lines: seq<Line> := [
    [0, 1, 2], [3, 4, 5], [6, 7, 8],
    [0, 3, 6], [1, 4, 7], [2, 5, 8],
    [0, 4, 8], [2, 4, 6]
  ]

  predicate IsTriple(l: Line) {
    |l| == 3 && l[0] < 9 && l[1] < 9 && l[2] < 9
  }

  /** The test of one triple: its first square is occupied and all three are equal. */
  predicate LineWins(b: Board, l: Line) {
    IsTriple(l) && b[l[0]] != Empty && b[l[0]] == b[l[1]] && b[l[0]] == b[l[2]]
  }

  /** The fixed order is rows top to bottom, columns left to right, then the two diagonals. */
  lemma LinesAreRowsColumnsDiagonals()
    ensures |Lines| == 8
    ensures forall r :: 0 <= r < 3 ==> Lines[r] == [3 * r, 3 * r + 1, 3 * r + 2]
    ensures forall c :: 3 <= c < 6 ==> Lines[c] == [c - 3, c, c + 3]
    ensures Lines[6] == [0, 4, 8] && Lines[7] == [2, 4, 6]
    ensures forall k :: 0 <= k < |Lines| ==> IsTriple(Lines[k])
  {
  }

  /**
   * The index of the first triple at or after k that wins on b, or |Lines| if none does.
   */
  function FirstWin(b: Board, k: nat): (r: nat)
    requires k <= |Lines|
    ensures k <= r <= |Lines|
    ensures r < |Lines| ==> LineWins(b, Lines[r])
    ensures forall j :: k <= j < r ==> !LineWins(b, Lines[j])
    decreases |Lines| - k
  {
    if k == |Lines| then |Lines|
    else if LineWins(b, Lines[k]) then k
    else FirstWin(b, k + 1)
  }

  /** What `calculateWinner(squares)` returns: the first winning triple, or `null`. */
  function Winner(b: Board): Option<Line> {
    var r := FirstWin(b, 0);
    if r < |Lines| then Some(Lines[r]) else None
  }

  /** `calculateWinner`: a loop over the triples with an early return. */
  method CalculateWinner(squares: Board) returns (r: Option<Line>)
    ensures r == Winner(squares)
  {
    LinesAreRowsColumnsDiagonals();
    var lines := Lines;
    for i := 0 to |lines|
      invariant forall j :: 0 <= j < i ==> !LineWins(squares, lines[j])
    {
      var a, b, c := lines[i][0], lines[i][1], lines[i][2];
      if squares[a] != Empty && squares[a] == squares[b] && squares[a] == squares[c] {
        assert LineWins(squares, lines[i]);
        return Some(lines[i]);
      }
    }
    return None;
  }

  /** A result other than `null` is one of the eight triples, its three squares
      hold the same mark, and no earlier triple wins. */
  lemma WinnerSound(b: Board)
    requires Winner(b).Some?
    ensures exists k :: 0 <= k < |Lines| && Winner(b).value == Lines[k] && LineWins(b, Lines[k])
                        && forall j :: 0 <= j < k ==> !LineWins(b, Lines[j])
  {
  }

  /** The first winning triple in the fixed order is the one returned. */
  lemma WinnerIsFirstWinningLine(b: Board, k: nat)
    requires k < |Lines| && LineWins(b, Lines[k])
    requires forall j :: 0 <= j < k ==> !LineWins(b, Lines[j])
    ensures Winner(b) == Some(Lines[k])
  {
  }

  /** `null` exactly when no triple wins. */
  lemma WinnerNoneIff(b: Board)
    ensures Winner(b) == None <==> forall k :: 0 <= k < |Lines| ==> !LineWins(b, Lines[k])
  {
  }

  lemma EmptyBoardHasNoWinner()
    ensures Winner(EmptyBoard) == None
  {
  }

  /** `current.squares[winningLine[0]]` in `Game.render`, the empty cell when there is no line. */
  function WinnerMark(b: Board): Cell {
    match Winner(b)
    case None => Empty
    case Some(l) => LinesAreRowsColumnsDiagonals(); b[l[0]]
  }

  /** The winner's mark is a real mark exactly when there is a winning line,
      and it occupies all three squares of that line. */
  lemma WinnerMarkOwnsLine(b: Board)
    ensures WinnerMark(b) != Empty <==> Winner(b).Some?
    ensures Winner(b).Some? ==>
              IsTriple(Winner(b).value) && forall k :: 0 <= k < 3 ==> b[Winner(b).value[k]] == WinnerMark(b)
  {
  }

  /** `Board.renderSquare`'s victory flag: a `null` line flags nothing, otherwise
      square i is flagged when some index of the line equals i. */
  predicate Victory(victoryLine: Option<Line>, i: nat) {
    match victoryLine
    case None => false
    case Some(l) => exists k :: 0 <= k < |l| && l[k] == i
  }

  /** With the line `calculateWinner` found, exactly the three squares of that line
      are flagged, and each holds the winner's mark. */
  lemma VictoryFlagsWinningSquares(b: Board, i: nat)
    requires i < 9
    ensures Victory(Winner(b), i) <==> Winner(b).Some? && i in Winner(b).value
    ensures Victory(Winner(b), i) ==> b[i] == WinnerMark(b) && b[i] != Empty
  {
  }

  lemma NothingFlaggedWithoutLine(i: nat)
    ensures !Victory(None, i) && !Victory(Some([]), i)
  {
  }

  /** Number of squares of b that hold c. */
  function Count(b: seq<Cell>, c: Cell): (n: nat)
    ensures n <= |b|
  {
    if b == [] then 0 else Count(b[..|b| - 1], c) + (if b[|b| - 1] == c then 1 else 0)
  }

  /** Placing mark m on an empty square adds one m, removes one empty square,
      and leaves the count of the other mark alone. */
  lemma {:induction false} CountPlace(b: seq<Cell>, i: nat, m: Cell, c: Cell)
    requires i < |b| && b[i] == Empty && m != Empty
    ensures Count(b[i := m], c) == Count(b, c) + (if c == m then 1 else if c == Empty then -1 else 0)
  {
    var n := |b| - 1;
    if i == n {
      assert b[i := m][..n] == b[..n];
    } else {
      CountPlace(b[..n], i, m, c);
      assert b[i := m][..n] == b[..n][i := m];
    }
  }

  /** A board whose squares are all empty holds no mark. */
  lemma {:induction false} CountAllEmpty(b: seq<Cell>, c: Cell)
    requires forall k :: 0 <= k < |b| ==> b[k] == Empty
    ensures Count(b, c) == if c == Empty then |b| else 0
  {
    if b != [] {
      CountAllEmpty(b[..|b| - 1], c);
    }
  }
}
