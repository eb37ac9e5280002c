/**
 * One game: its move history, turn and highlight state (`Game` in the app),
 * the click and time-travel operations, and the texts `Game.render` derives.
 */
module Session {
  import opened TicTacToe
  import Decimal

  /** The mark a click places: 'X' when `xIsNext`, 'O' otherwise. */
  function Mark(xIsNext: bool): Cell {
    if xIsNext then X else O
  }

  /** The mark of the move made from step k when X moves first and turns alternate. */
  function MarkAtStep(k: nat): Cell {
    Mark(k % 2 == 0)
  }

  /** `handleClick` goes ahead unless the board already has a winner or square i is taken. */
  predicate Legal(squares: Board, i: nat)
    requires i < 9
  {
    Winner(squares) == None && squares[i] == Empty
  }

  /** after is before with mark m played on square i, a legal move. */
  predicate Played(before: Board, i: nat, m: Cell, after: Board) {
    i < 9 && Legal(before, i) && after == before[i := m]
  }

  /** A history of boards that starts empty and in which board k + 1 is board k after
      the legal move moves[k] by the player whose turn step k is. */
  predicate ValidHistory(history: seq<Board>, moves: seq<nat>) {
    |history| == |moves| + 1 &&
    history[0] == EmptyBoard &&
    forall k :: 0 <= k < |moves| ==> Played(history[k], moves[k], MarkAtStep(k), history[k + 1])
  }

  /** The initial history `[{squares: Array(9).fill(null)}]` is valid. */
  lemma InitialHistoryValid()
    ensures ValidHistory([EmptyBoard], [])
  {
  }

  /** Cutting a valid history after step s and appending the board after a legal move
      from step s keeps it valid; the boards up to step s are kept as they were. */
  lemma BranchKeepsHistoryValid(history: seq<Board>, moves: seq<nat>, s: nat, i: nat)
    requires ValidHistory(history, moves) && s < |history| && i < 9 && Legal(history[s], i)
    ensures var h := history[..s + 1] + [history[s][i := MarkAtStep(s)]];
            ValidHistory(h, moves[..s] + [i]) && |h| == s + 2 && h[..s + 1] == history[..s + 1]
  {
  }

  function MarkText(c: Cell): string {
    match c
    case X => "X"
    case O => "O"
    case Empty => ""
  }

  /** The status line of `Game.render` for board b. */
  function StatusText(b: Board, xIsNext: bool): string {
    var winner := WinnerMark(b);
    if winner != Empty then "Winner: " + MarkText(winner)
    else "Next player: " + (if xIsNext then "X" else "O")
  }

  /** The status announces a winner exactly when the board has a winning line and
      then names the mark on all three of its squares; otherwise it names the next player. */
  lemma StatusAnnouncesWinner(b: Board, xIsNext: bool)
    ensures Winner(b).Some? <==> "Winner: " <= StatusText(b, xIsNext)
    ensures Winner(b).Some? ==>
              forall k :: 0 <= k < 3 ==> StatusText(b, xIsNext) == "Winner: " + MarkText(b[Winner(b).value[k]])
    ensures Winner(b).None? ==> StatusText(b, xIsNext) == "Next player: " + MarkText(Mark(xIsNext))
  {
  }

  /** The label of the button for step `move` in the move list. */
  function MoveLabel(move: nat): string {
    if move == 0 then "Go to game start" else "Go to move #" + Decimal.NatToString(move)
  }

  /** Every label after the first names its own step, so no two buttons share a label. */
  lemma MoveLabelsDistinct(m: nat, n: nat)
    ensures m > 0 ==> "Go to move #" <= MoveLabel(m) && Decimal.AllDigits(MoveLabel(m)[|"Go to move #"|..])
                      && Decimal.Value(MoveLabel(m)[|"Go to move #"|..]) == m
    ensures m != n ==> MoveLabel(m) != MoveLabel(n)
  {
    if m > 0 {
      assert MoveLabel(m)[|"Go to move #"|..] == Decimal.NatToString(m);
      Decimal.ValueOfNatToString(m);
    }
    if m != n {
      if m > 0 && n > 0 {
        assert MoveLabel(m)[|"Go to move #"|..] == Decimal.NatToString(m);
        assert MoveLabel(n)[|"Go to move #"|..] == Decimal.NatToString(n);
        Decimal.NatToStringInjective(m, n);
      } else if m == 0 && n > 0 {
        assert MoveLabel(m)[6] != MoveLabel(n)[6];
      } else if n == 0 && m > 0 {
        assert MoveLabel(m)[6] != MoveLabel(n)[6];
      }
    }
  }

  class Game {
    /** `props.id`, shown as "Game #id". */
    const id: nat
    var history: seq<Board>
    var stepNumber: nat
    var xIsNext: bool
    /** `null` is None; the initial `[]` is Some([]). */
    var victoryLine: Option<Line>
    /** The square played at each step, so that history[k + 1] is history[k] after moves[k]. */
    ghost var moves: seq<nat>

    /** The history starts empty, each later board is its predecessor after one
        legal move by the player whose turn it was, and the turn follows the step's parity. */
    ghost predicate Valid()
      reads this
    {
      ValidHistory(history, moves) &&
      stepNumber < |history| &&
      xIsNext == (stepNumber % 2 == 0)
    }

    constructor (id: nat)
      ensures Valid()
      ensures this.id == id && history == [EmptyBoard] && stepNumber == 0 && xIsNext
      ensures victoryLine == Some([])
    {
      this.id := id;
      history := [EmptyBoard];
      stepNumber := 0;
      xIsNext := true;
      victoryLine := Some([]);
      moves := [];
    }

    /** A click on square i. */
    method HandleClick(i: nat)
      requires Valid() && i < 9
      modifies this
      ensures Valid()
      ensures var current := old(history[stepNumber]);
              if Legal(current, i) then
                history == old(history[..stepNumber + 1]) + [current[i := Mark(old(xIsNext))]]
                && stepNumber == old(stepNumber) + 1 && xIsNext == !old(xIsNext)
                && victoryLine == old(victoryLine)
              else
                history == old(history) && stepNumber == old(stepNumber) && xIsNext == old(xIsNext)
                && victoryLine == Winner(current)
      ensures old(Legal(history[stepNumber], i)) ==>
                history[stepNumber][i] == Mark(old(xIsNext))
                && forall j :: 0 <= j < 9 && j != i ==> history[stepNumber][j] == old(history[stepNumber][j])
    {
      var hist := history[..stepNumber + 1];
      var current := hist[|hist| - 1];
      var squares := new Cell[9](j requires 0 <= j < 9 => current[j]);
      assert squares[..] == current;
      var w := CalculateWinner(squares[..]);
      if w.Some? || squares[i] != Empty {
        victoryLine := CalculateWinner(squares[..]);
        return;
      }
      squares[i] := if xIsNext then X else O;
      assert squares[..] == current[i := Mark(xIsNext)];
      BranchKeepsHistoryValid(history, moves, stepNumber, i);
      moves := moves[..stepNumber] + [i];
      history := hist + [squares[..]];
      stepNumber := |hist|;
      xIsNext := !xIsNext;
    }

    /** A click on the move-list button of `step`, which lists only existing steps. */
    method JumpTo(step: nat)
      requires Valid() && step < |history|
      modifies this
      ensures Valid()
      ensures history == old(history) && moves == old(moves)
      ensures stepNumber == step && xIsNext == (step % 2 == 0) && victoryLine == Some([])
    {
      stepNumber := step;
      xIsNext := step % 2 == 0;
      victoryLine := Some([]);
    }

    /** The status line under the board: the winner of the shown board, or the
        player whose turn the step's parity gives. */
    function Status(): (s: string)
      reads this
      requires Valid()
      ensures Winner(history[stepNumber]).Some? ==>
                s == "Winner: " + MarkText(history[stepNumber][Winner(history[stepNumber]).value[0]])
      ensures Winner(history[stepNumber]).None? ==> s == "Next player: " + MarkText(MarkAtStep(stepNumber))
    {
      StatusAnnouncesWinner(history[stepNumber], xIsNext);
      StatusText(history[stepNumber], xIsNext)
    }

    /** `history.map`: one button label per step, the first for the game start. */
    function MoveLabels(): (labels: seq<string>)
      reads this
      requires Valid()
      ensures |labels| == |history| && labels[0] == "Go to game start"
      ensures forall m, n :: 0 <= m < n < |labels| ==> labels[m] != labels[n]
    {
      var labels := seq(|history|, m requires 0 <= m => MoveLabel(m));
      forall m, n | 0 <= m < n < |labels| ensures labels[m] != labels[n] {
        MoveLabelsDistinct(m, n);
      }
      labels
    }
  }

  /** In a valid game the board at step k holds (k + 1) / 2 X's, k / 2 O's and
      9 - k empty squares. */
  lemma {:induction false} MarksAlternate(g: Game, k: nat)
    requires g.Valid() && k < |g.history|
    ensures Count(g.history[k], X) == (k + 1) / 2 && Count(g.history[k], O) == k / 2
    ensures Count(g.history[k], Empty) == 9 - k
  {
    if k == 0 {
      CountAllEmpty(EmptyBoard, X);
      CountAllEmpty(EmptyBoard, O);
      CountAllEmpty(EmptyBoard, Empty);
    } else {
      MarksAlternate(g, k - 1);
      assert Played(g.history[k - 1], g.moves[k - 1], MarkAtStep(k - 1), g.history[k]);
      CountPlace(g.history[k - 1], g.moves[k - 1], MarkAtStep(k - 1), X);
      CountPlace(g.history[k - 1], g.moves[k - 1], MarkAtStep(k - 1), O);
      CountPlace(g.history[k - 1], g.moves[k - 1], MarkAtStep(k - 1), Empty);
    }
  }

  /** Every move fills an empty square, so a history never has more than ten boards. */
  lemma HistoryBounded(g: Game)
    requires g.Valid()
    ensures |g.history| <= 10
  {
    MarksAlternate(g, |g.history| - 1);
  }
}
