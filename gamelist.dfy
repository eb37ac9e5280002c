/**
 * The list manager (`App` in the app): an ordered list of independent games
 * and the counter that hands out their ids.
 */
module GameList {
  import opened TicTacToe
  import Session

  /** The ids carried by a list of games, in list order. */
  function Ids(games: seq<Session.Game>): (ids: seq<nat>)
    ensures |ids| == |games|
    ensures forall k :: 0 <= k < |games| ==> ids[k] == games[k].id
  {
    if games == [] then [] else Ids(games[..|games| - 1]) + [games[|games| - 1].id]
  }

  predicate StrictlyIncreasing(ids: seq<nat>) {
    forall m, n :: 0 <= m < n < |ids| ==> ids[m] < ids[n]
  }

  /** A list whose ids are 0, 1, ..., in order, has strictly increasing ids, all below its length. */
  lemma {:induction false} CountingIdsIncrease(ids: seq<nat>)
    requires forall k :: 0 <= k < |ids| ==> ids[k] == k
    ensures StrictlyIncreasing(ids) && forall k :: 0 <= k < |ids| ==> ids[k] < |ids|
  {
  }

  class App {
    var gameList: seq<Session.Game>
    var currentKey: nat

    /** Since the last reset games were added one at a time, each taking the counter
        as its id: the ids are 0, 1, ..., currentKey - 1 in list order. */
    ghost predicate Valid()
      reads this
    {
      |gameList| == currentKey &&
      forall k :: 0 <= k < |gameList| ==> gameList[k].id == k
    }

    constructor ()
      ensures Valid() && gameList == [] && currentKey == 0
    {
      gameList := [];
      currentKey := 0;
    }

    /** The "Add game" button: append a fresh game whose id is the counter, then bump the counter. */
    method AddGame()
      requires Valid()
      modifies this
      ensures Valid()
      ensures |gameList| == |old(gameList)| + 1 && gameList[..|old(gameList)|] == old(gameList)
      ensures var g := gameList[|old(gameList)|];
              fresh(g) && g.id == old(currentKey) && g.Valid()
              && g.history == [EmptyBoard] && g.stepNumber == 0 && g.xIsNext && g.victoryLine == Some([])
      ensures currentKey == old(currentKey) + 1
      ensures Ids(gameList) == Ids(old(gameList)) + [old(currentKey)]
      ensures old(currentKey) !in Ids(old(gameList)) && StrictlyIncreasing(Ids(gameList))
    {
      var list := gameList;
      var id := currentKey;
      var g := new Session.Game(id);
      gameList := list + [g];
      currentKey := currentKey + 1;
      assert gameList[..|list|] == list;
      AddedIdIsNew(list, id);
      CountingIdsIncrease(Ids(gameList));
    }

    /** The "Reset games" button: drop every game and restart the counter at 0. */
    method ResetGames()
      modifies this
      ensures Valid() && gameList == [] && currentKey == 0
    {
      gameList := [];
      currentKey := 0;
    }
  }

  /** The counter's value is not the id of any game already in the list. */
  lemma AddedIdIsNew(games: seq<Session.Game>, key: nat)
    requires |games| == key && forall k :: 0 <= k < |games| ==> games[k].id == k
    ensures key !in Ids(games)
  {
  }
}
