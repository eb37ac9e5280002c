# Tic-tac-toe with history and a list of games, in Dafny

This project models the logic of a browser tic-tac-toe app, without React. The app has three parts:

- **Winner detection.** `calculateWinner` scans the eight fixed triples of a 3×3 board (rows, then columns, then diagonals). It returns the first triple whose three squares are occupied by the same mark, or `null`.
- **One game.** `Game` holds a history of board snapshots, the current `stepNumber`, `xIsNext` and the highlighted `victoryLine`. A click on a square either is rejected or branches the history: the history is cut after the current step and the board with the new mark is appended. A click in the move list travels back to an earlier step. The game also derives a status line and one label per step.
- **The list of games.** `App` keeps the games in order and hands out ids from a counter. "Add game" appends a fresh game with the counter as id and then increments the counter. "Reset games" empties the list and sets the counter back to 0.

Files:

- `tictactoe.dfy`, module `TicTacToe`. The cell, board and line types and the eight `Lines`. The specification function `Winner` and the loop method `CalculateWinner` proved equal to it. Lemmas that characterise the result. The highlight predicate `Victory`. Mark counting.
- `decimal.dfy`, module `Decimal`. The decimal text of a number, as JavaScript writes it in `'Go to move #' + move`, together with its reading back.
- `session.dfy`, module `Session`. The class `Game`, whose methods update its fields. It keeps the invariant `Valid()`: the history starts with the empty board, and every later board is its predecessor after one legal move by the player whose turn it was. It also keeps `xIsNext == (stepNumber % 2 == 0)`. A ghost field `moves` records the square played at each step.
- `gamelist.dfy`, module `GameList`. The class `App`. Its invariant is that the ids in the list are 0, 1, …, `currentKey - 1` in order.
- `scenarios.dfy`, module `Scenarios`. Concrete runs proved from the class contracts alone. `TopRowGame` plays X on 0, 1, 2 against O on 3, 4: the status becomes "Winner: X", and one more click is rejected and records the line [0, 1, 2]. `BranchFromEarlierStep` plays five moves, jumps back to step 2 and plays again, which leaves four boards. `ResetRestartsIds` adds three games, resets, and adds one more, which gets id 0. Each game is played in stage methods of one or two clicks.

In these details the model follows the code:

- A rejected click writes `victoryLine := calculateWinner(squares)` (src/index.js:75-79). That value is `null` when the click was rejected only because the square is taken.
- An accepted click leaves `victoryLine` as it was (src/index.js:82-88). The winning line is therefore highlighted only after a further click on the won board.
- `jumpTo` clears `victoryLine` to `[]` (src/index.js:95). It does not recompute the line from the board it jumps to.
- There is no "Draw" status, and the move labels carry no row/column annotation, because the code has neither.

`victoryLine` is an `Option<Line>`. `None` stands for `null`, and `Some([])` for the initial `[]`.

## Model

| member | source | states |
|---|---|---|
| TicTacToe.LinesAreRowsColumnsDiagonals | src/index.js:148-157 | the eight triples are the three rows top to bottom, the three columns left to right, then the diagonals 0-4-8 and 2-4-6, each three in-range indices |
| TicTacToe.FirstWin | src/index.js:158-166 | the index found is the first triple at or after k whose three squares are occupied and equal: every earlier one fails, and it is 8 when none wins |
| TicTacToe.CalculateWinner | src/index.js:147-167 | the loop with its early return computes exactly the first winning triple, or `null` |
| TicTacToe.WinnerSound | src/index.js:158-164 | a non-null result is one of the eight triples, its squares are occupied and equal, and no triple before it in the fixed order wins |
| TicTacToe.WinnerIsFirstWinningLine | src/index.js:158-164 | when several triples win, the first in the fixed order is returned |
| TicTacToe.WinnerNoneIff | src/index.js:158-166 | the result is `null` if and only if no triple wins |
| TicTacToe.EmptyBoardHasNoWinner | src/index.js:147-167 | the all-empty board has no winner |
| TicTacToe.WinnerMarkOwnsLine | src/index.js:102-106 | `squares[winningLine[0]]` is a real mark exactly when there is a winning line, and that mark is on all three of its squares |
| TicTacToe.VictoryFlagsWinningSquares | src/index.js:27-29 | with the line `calculateWinner` returns, a square is flagged iff it is one of that line's indices, and every flagged square holds the winner's mark |
| TicTacToe.NothingFlaggedWithoutLine | src/index.js:27-29 | a `null` victory line and the empty line `[]` flag no square |
| TicTacToe.CountPlace | src/index.js:81 | placing a mark on an empty square adds one of that mark, removes one empty square and leaves the other mark's count unchanged |
| Decimal.NatToString | src/index.js:112 | the step number is written as at least one decimal digit, with no leading zero unless it is 0 |
| Decimal.ValueOfNatToString | src/index.js:112 | reading the written digits back gives the step number |
| Decimal.NatToStringInjective | src/index.js:112 | different step numbers are written differently |
| Session.InitialHistoryValid | src/index.js:59-61 | the one-board history of a new game satisfies the history invariant |
| Session.BranchKeepsHistoryValid | src/index.js:72-85 | cutting a valid history after step s and appending the board after a legal move from s keeps it valid, and keeps boards 0..s as they were |
| Session.StatusAnnouncesWinner | src/index.js:102-126 | the status begins "Winner: " iff the shown board has a winning line, and then names the mark on all three squares of that line; otherwise it is "Next player: " and the mark of `xIsNext` |
| Session.MoveLabelsDistinct | src/index.js:110-113 | a label for step m > 0 is "Go to move #" followed by digits whose value is m; labels of different steps differ |
| Session.Game.constructor | src/index.js:56-66 | a new game has the single empty board, step 0, X to move, victory line `[]`, and satisfies the invariant |
| Session.Game.HandleClick | src/index.js:68-89 | if the current board has a winner or square i is taken, history, step and turn are unchanged and the victory line becomes `calculateWinner` of that board. Otherwise the history becomes the old one cut to stepNumber+1 boards plus the current board with the mover's mark at i (no other square changes), the step goes up by one, the turn flips, and the victory line is kept. The invariant is preserved. |
| Session.Game.JumpTo | src/index.js:91-97 | the history is unchanged, the step becomes `step`, X moves iff the step is even, the victory line is cleared to `[]`, and the invariant is preserved |
| Session.Game.Status | src/index.js:99-126 | the status is "Winner: " and the mark of the winning line's first square when the shown board has one; otherwise "Next player: " and the mark that the parity of the step gives |
| Session.Game.MoveLabels | src/index.js:110-119 | one label per history entry; the first is "Go to game start", and no two labels are equal |
| Session.MarksAlternate | src/index.js:81-87 | in a valid game, the board at step k holds (k+1)/2 X's, k/2 O's and 9-k empty squares |
| Session.HistoryBounded | src/index.js:72-88 | a valid history never holds more than ten boards |
| GameList.CountingIdsIncrease | src/index.js:180-190 | ids 0, 1, … in list order are strictly increasing and all below the list length |
| GameList.AddedIdIsNew | src/index.js:180-190 | the counter's value is not the id of any game already in the list |
| GameList.App.constructor | src/index.js:172-178 | a new manager has an empty list and counter 0 |
| GameList.App.AddGame | src/index.js:180-190 | exactly one fresh game is appended, in its initial state, with id the old counter; earlier entries are kept; the counter goes up by one; ids stay strictly increasing and the new id was not in use |
| GameList.App.ResetGames | src/index.js:192-197 | the list becomes empty and the counter 0, so the next added game gets id 0 |
| Scenarios.TopRowWin | src/index.js:147-167 | on the board X X X / O O . / . . . the winner is the triple [0, 1, 2] and the status is "Winner: X" |

## Left out

- JSX rendering: the `Square` button, its red/white styling, the row `div`s of `Board.render`, the `<ol>` of move buttons and "Game #id" text. These are presentation only; the model keeps the values they display.
- React's `setState` machinery, batching and re-rendering. Each `setState` is modelled as a plain field update that takes effect at once.
- `ReactDOM.render`, `document.getElementById` and the CSS import. These are the DOM boundary.
- React `key` reconciliation (`key={move}`, `key={index}`). This is internal to the renderer.
- `App` list entries are modelled as fresh `Game` objects carrying their `id`. What happens to a game's own state after it is added is not tracked by `App`'s invariant, because each game is independent.
- Session.Game.HandleClick: requires `i < 9`. The board only ever passes its own square indices, 0 to 8. An index outside that range would extend the JavaScript array, and this is not modelled.
- Session.Game.JumpTo: requires `step < |history|`. The move list only offers steps that exist.
- Decimal.NatToString: does not model JavaScript's exponent notation for numbers of 10^21 and above. Step numbers never exceed 9 (see Session.HistoryBounded).
