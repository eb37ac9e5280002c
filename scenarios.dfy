/**
 * Concrete runs proved from the contracts of `Game` and `App` alone: a won game,
 * a game that travels back and branches, and a reset of the game list. Each game
 * is played in stages of one or two clicks.
 */
module Scenarios {
  import opened TicTacToe
  import opened Session
  import opened GameList

  /** X on 0, 1, 2 and O on 3, 4: the top row wins and the status names X. */
  lemma TopRowWin()
    ensures var b := [X, X, X, O, O, Empty, Empty, Empty, Empty];
            Winner(b) == Some([0, 1, 2]) && StatusText(b, false) == "Winner: X"
  {
  }

  /** X takes 0 and O takes 3. */
  method TopRowOpening(g: Game)
    requires g.Valid() && g.stepNumber == 0 && g.history == [
         [Empty, Empty, Empty, Empty, Empty, Empty, Empty, Empty, Empty]
      ]
    modifies g
    ensures g.Valid() && g.stepNumber == 2 && g.history == [
         [Empty, Empty, Empty, Empty, Empty, Empty, Empty, Empty, Empty],
         [X, Empty, Empty, Empty, Empty, Empty, Empty, Empty, Empty],
         [X, Empty, Empty, O, Empty, Empty, Empty, Empty, Empty]
      ]
  {
    g.HandleClick(0);
    assert g.history[1] == [X, Empty, Empty, Empty, Empty, Empty, Empty, Empty, Empty];
    g.HandleClick(3);
    assert g.history[2] == [X, Empty, Empty, O, Empty, Empty, Empty, Empty, Empty];
  }

  /** X takes 1 and O takes 4. */
  method TopRowMiddle(g: Game)
    requires g.Valid() && g.stepNumber == 2 && g.history == [
         [Empty, Empty, Empty, Empty, Empty, Empty, Empty, Empty, Empty],
         [X, Empty, Empty, Empty, Empty, Empty, Empty, Empty, Empty],
         [X, Empty, Empty, O, Empty, Empty, Empty, Empty, Empty]
      ]
    modifies g
    ensures g.Valid() && g.stepNumber == 4 && g.history == [
         [Empty, Empty, Empty, Empty, Empty, Empty, Empty, Empty, Empty],
         [X, Empty, Empty, Empty, Empty, Empty, Empty, Empty, Empty],
         [X, Empty, Empty, O, Empty, Empty, Empty, Empty, Empty],
         [X, X, Empty, O, Empty, Empty, Empty, Empty, Empty],
         [X, X, Empty, O, O, Empty, Empty, Empty, Empty]
      ]
  {
    g.HandleClick(1);
    assert g.history[3] == [X, X, Empty, O, Empty, Empty, Empty, Empty, Empty];
    g.HandleClick(4);
    assert g.history[4] == [X, X, Empty, O, O, Empty, Empty, Empty, Empty];
  }

  /** X takes 2 and completes the top row. */
  method TopRowFinish(g: Game)
    requires g.Valid() && g.stepNumber == 4 && g.history == [
         [Empty, Empty, Empty, Empty, Empty, Empty, Empty, Empty, Empty],
         [X, Empty, Empty, Empty, Empty, Empty, Empty, Empty, Empty],
         [X, Empty, Empty, O, Empty, Empty, Empty, Empty, Empty],
         [X, X, Empty, O, Empty, Empty, Empty, Empty, Empty],
         [X, X, Empty, O, O, Empty, Empty, Empty, Empty]
      ]
    modifies g
    ensures g.Valid() && g.stepNumber == 5 && g.history == [
         [Empty, Empty, Empty, Empty, Empty, Empty, Empty, Empty, Empty],
         [X, Empty, Empty, Empty, Empty, Empty, Empty, Empty, Empty],
         [X, Empty, Empty, O, Empty, Empty, Empty, Empty, Empty],
         [X, X, Empty, O, Empty, Empty, Empty, Empty, Empty],
         [X, X, Empty, O, O, Empty, Empty, Empty, Empty],
         [X, X, X, O, O, Empty, Empty, Empty, Empty]
      ]
  {
    g.HandleClick(2);
    assert g.history[5] == [X, X, X, O, O, Empty, Empty, Empty, Empty];
  }

  /** X takes 0 and O takes 1. */
  method BranchOpening(g: Game)
    requires g.Valid() && g.stepNumber == 0 && g.history == [
         [Empty, Empty, Empty, Empty, Empty, Empty, Empty, Empty, Empty]
      ]
    modifies g
    ensures g.Valid() && g.stepNumber == 2 && g.history == [
         [Empty, Empty, Empty, Empty, Empty, Empty, Empty, Empty, Empty],
         [X, Empty, Empty, Empty, Empty, Empty, Empty, Empty, Empty],
         [X, O, Empty, Empty, Empty, Empty, Empty, Empty, Empty]
      ]
  {
    g.HandleClick(0);
    assert g.history[1] == [X, Empty, Empty, Empty, Empty, Empty, Empty, Empty, Empty];
    g.HandleClick(1);
    assert g.history[2] == [X, O, Empty, Empty, Empty, Empty, Empty, Empty, Empty];
  }

  /** X takes 2 and O takes 3. */
  method BranchMiddle(g: Game)
    requires g.Valid() && g.stepNumber == 2 && g.history == [
         [Empty, Empty, Empty, Empty, Empty, Empty, Empty, Empty, Empty],
         [X, Empty, Empty, Empty, Empty, Empty, Empty, Empty, Empty],
         [X, O, Empty, Empty, Empty, Empty, Empty, Empty, Empty]
      ]
    modifies g
    ensures g.Valid() && g.stepNumber == 4 && g.history == [
         [Empty, Empty, Empty, Empty, Empty, Empty, Empty, Empty, Empty],
         [X, Empty, Empty, Empty, Empty, Empty, Empty, Empty, Empty],
         [X, O, Empty, Empty, Empty, Empty, Empty, Empty, Empty],
         [X, O, X, Empty, Empty, Empty, Empty, Empty, Empty],
         [X, O, X, O, Empty, Empty, Empty, Empty, Empty]
      ]
  {
    g.HandleClick(2);
    assert g.history[3] == [X, O, X, Empty, Empty, Empty, Empty, Empty, Empty];
    g.HandleClick(3);
    assert g.history[4] == [X, O, X, O, Empty, Empty, Empty, Empty, Empty];
  }

  /** X takes 4; nobody has won. */
  method BranchFifth(g: Game)
    requires g.Valid() && g.stepNumber == 4 && g.history == [
         [Empty, Empty, Empty, Empty, Empty, Empty, Empty, Empty, Empty],
         [X, Empty, Empty, Empty, Empty, Empty, Empty, Empty, Empty],
         [X, O, Empty, Empty, Empty, Empty, Empty, Empty, Empty],
         [X, O, X, Empty, Empty, Empty, Empty, Empty, Empty],
         [X, O, X, O, Empty, Empty, Empty, Empty, Empty]
      ]
    modifies g
    ensures g.Valid() && g.stepNumber == 5 && g.history == [
         [Empty, Empty, Empty, Empty, Empty, Empty, Empty, Empty, Empty],
         [X, Empty, Empty, Empty, Empty, Empty, Empty, Empty, Empty],
         [X, O, Empty, Empty, Empty, Empty, Empty, Empty, Empty],
         [X, O, X, Empty, Empty, Empty, Empty, Empty, Empty],
         [X, O, X, O, Empty, Empty, Empty, Empty, Empty],
         [X, O, X, O, X, Empty, Empty, Empty, Empty]
      ]
  {
    g.HandleClick(4);
    assert g.history[5] == [X, O, X, O, X, Empty, Empty, Empty, Empty];
  }

  /** The top-row game click by click: after X's third mark the status names X, and
      one more click is rejected and records the winning line for highlighting. */
  method TopRowGame()
  {
    var g := new Game(0);
    assert g.history == [[Empty, Empty, Empty, Empty, Empty, Empty, Empty, Empty, Empty]];
    TopRowOpening(g);
    TopRowMiddle(g);
    TopRowFinish(g);
    assert g.Status() == "Winner: X";
    g.HandleClick(8);
    assert |g.history| == 6 && g.victoryLine == Some([0, 1, 2]);
  }

  /** After five moves, going back to step 2 and playing again replaces steps 3 and 4:
      the history holds four boards, not six. */
  method BranchFromEarlierStep()
  {
    var g := new Game(0);
    assert g.history == [[Empty, Empty, Empty, Empty, Empty, Empty, Empty, Empty, Empty]];
    BranchOpening(g);
    BranchMiddle(g);
    BranchFifth(g);
    g.JumpTo(2);
    assert g.history[2] == [X, O, Empty, Empty, Empty, Empty, Empty, Empty, Empty];
    assert g.Status() == "Next player: X";
    g.HandleClick(5);
    assert |g.history| == 4 && g.stepNumber == 3;
    assert g.history[3] == [X, O, Empty, Empty, Empty, X, Empty, Empty, Empty];
  }

  /** Three games, a reset, and one more game: the new game gets id 0 again. */
  method ResetRestartsIds()
  {
    var app := new App();
    app.AddGame();
    app.AddGame();
    app.AddGame();
    assert Ids(app.gameList) == [0, 1, 2];
    app.ResetGames();
    app.AddGame();
    assert |app.gameList| == 1 && app.gameList[0].id == 0;
  }
}
