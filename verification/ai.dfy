/** The computer player of Assets/Scripts/AIPlayer.cs: what it does at each
    stage of a turn, and which stones it may move.  `Random.Range` becomes an
    input; the scan over all stones is the scan over the game's stones in
    index order. */
module Ai {
  import opened Outcomes
  import opened Board
  import opened Paths
  import opened Turns

  datatype Action = Roll | Click | Wait

  /** DoAI: roll when the dice have not been rolled, pick a stone when they
      have but no stone has been moved, otherwise wait. */
  function DoAI(s: TurnState): (a: Action)
    ensures a == Roll <==> !s.isDoneRolling
    ensures a == Click <==> s.isDoneRolling && !s.isDoneClicking
    ensures a == Wait <==> s.isDoneRolling && s.isDoneClicking
  {
    if !s.isDoneRolling then Roll
    else if !s.isDoneClicking then Click
    else Wait
  }

  predicate InGame(g: Game, stones: seq<StoneId>) {
    forall i :: 0 <= i < |stones| ==> stones[i] < |g.stones|
  }

  /** A stone the player may move this turn. */
  predicate Movable(g: Game, k: StoneId, pid: int, n: int)
    requires ValidBoard(g) && k < |g.stones|
  {
    g.stones[k].playerId == pid && CanLegallyMoveAhead(g, g.stones[k], n) == Ok(true)
  }

  /** The stones of `stones` the player may move `n` ahead, in scan order; a
      failing look-ahead for one of the player's stones aborts the scan. */
  function LegalAmong(g: Game, stones: seq<StoneId>, pid: int, n: int): (r: Result<seq<StoneId>>)
    requires ValidBoard(g) && InGame(g, stones)
    ensures r.Ok? ==> |r.value| <= |stones| && InGame(g, r.value)
    ensures r.Ok? ==> forall k :: k in r.value <==> k in stones && Movable(g, k, pid, n)
    ensures r.Err? ==> exists i :: 0 <= i < |stones| && g.stones[stones[i]].playerId == pid &&
                         CanLegallyMoveAhead(g, g.stones[stones[i]], n) == Err(r.error)
    ensures (exists i :: 0 <= i < |stones| && g.stones[stones[i]].playerId == pid &&
               CanLegallyMoveAhead(g, g.stones[stones[i]], n).Err?) ==> r.Err?
    decreases |stones|
  {
    if |stones| == 0 then Ok([])
    else
      var before :- LegalAmong(g, stones[..|stones| - 1], pid, n);
      var k := stones[|stones| - 1];
      if g.stones[k].playerId != pid then Ok(before)
      else
        var legal :- CanLegallyMoveAhead(g, g.stones[k], n);
        if legal then Ok(before + [k]) else Ok(before)
  }

  /** GetLegalMoves: nothing for a zero roll, otherwise every stone of the
      current player that can move the dice total ahead. */
  function GetLegalMoves(s: TurnState, g: Game): (r: Result<seq<StoneId>>)
    requires ValidBoard(g)
    ensures s.diceTotal == 0 ==> r == Ok([])
    ensures s.diceTotal != 0 && r.Ok? ==>
              forall k :: k in r.value <==> 0 <= k < |g.stones| && Movable(g, k, s.currentPlayerId, s.diceTotal)
    ensures s.diceTotal != 0 ==>
              (r.Err? <==> exists k :: 0 <= k < |g.stones| && g.stones[k].playerId == s.currentPlayerId &&
                                       CanLegallyMoveAhead(g, g.stones[k], s.diceTotal).Err?)
  {
    if s.diceTotal == 0 then Ok([])
    else
      var ks := AllStones(g);
      var r := LegalAmong(g, ks, s.currentPlayerId, s.diceTotal);
      assert r.Err? ==> exists k :: 0 <= k < |g.stones| && g.stones[k].playerId == s.currentPlayerId &&
                                    CanLegallyMoveAhead(g, g.stones[k], s.diceTotal).Err? by {
        if r.Err? {
          var i :| 0 <= i < |ks| && g.stones[ks[i]].playerId == s.currentPlayerId &&
                   CanLegallyMoveAhead(g, g.stones[ks[i]], s.diceTotal) == Err(r.error);
          assert ks[i] == i;
        }
      }
      assert (exists k :: 0 <= k < |g.stones| && g.stones[k].playerId == s.currentPlayerId &&
                          CanLegallyMoveAhead(g, g.stones[k], s.diceTotal).Err?) ==> r.Err? by {
        if exists k :: 0 <= k < |g.stones| && g.stones[k].playerId == s.currentPlayerId &&
                       CanLegallyMoveAhead(g, g.stones[k], s.diceTotal).Err? {
          var k :| 0 <= k < |g.stones| && g.stones[k].playerId == s.currentPlayerId &&
                   CanLegallyMoveAhead(g, g.stones[k], s.diceTotal).Err?;
          assert ks[k] == k;
        }
      }
      r
  }

  /** Indices increase along the sequence: the sequence lists stones in scan order. */
  predicate Increasing(ks: seq<StoneId>) {
    forall i, j :: 0 <= i < j < |ks| ==> ks[i] < ks[j]
  }

  /** The filter keeps the scan order. */
  lemma {:induction false} LegalAmongKeepsOrder(g: Game, stones: seq<StoneId>, pid: int, n: int)
    requires ValidBoard(g) && InGame(g, stones) && Increasing(stones)
    requires LegalAmong(g, stones, pid, n).Ok?
    ensures Increasing(LegalAmong(g, stones, pid, n).value)
    decreases |stones|
  {
    if |stones| > 0 {
      var prefix := stones[..|stones| - 1];
      LegalAmongKeepsOrder(g, prefix, pid, n);
      var before := LegalAmong(g, prefix, pid, n).value;
      var k := stones[|stones| - 1];
      forall x | x in before
        ensures x < k
      {
        var i :| 0 <= i < |prefix| && prefix[i] == x;
        assert stones[i] == x;
      }
      var r := LegalAmong(g, stones, pid, n).value;
      if r != before {
        assert r == before + [k];
        forall i, j | 0 <= i < j < |r|
          ensures r[i] < r[j]
        {
          if j == |r| - 1 {
            assert r[i] == before[i] && before[i] in before;
          } else {
            assert r[i] == before[i] && r[j] == before[j];
          }
        }
      }
    }
  }

  /** GetLegalMoves lists stones in scan order. */
  lemma LegalMovesInScanOrder(s: TurnState, g: Game)
    requires ValidBoard(g) && GetLegalMoves(s, g).Ok?
    ensures Increasing(GetLegalMoves(s, g).value)
  {
    if s.diceTotal != 0 {
      LegalAmongKeepsOrder(g, AllStones(g), s.currentPlayerId, s.diceTotal);
    }
  }

  /** CheckLegalMoves and the AI agree on whether a move exists: the scan
      finds a legal move exactly when the AI's list of legal stones is not
      empty, and the two scans fail alike. */
  lemma {:induction false} LegalMoveScansAgree(g: Game, stones: seq<StoneId>, pid: int, n: int)
    requires ValidBoard(g) && InGame(g, stones)
    ensures LegalAmong(g, stones, pid, n).Ok? <==> HasLegalMove(g, stones, pid, n).Ok?
    ensures LegalAmong(g, stones, pid, n).Ok? ==>
              HasLegalMove(g, stones, pid, n).value == (|LegalAmong(g, stones, pid, n).value| > 0)
    ensures LegalAmong(g, stones, pid, n).Err? ==>
              HasLegalMove(g, stones, pid, n).error == LegalAmong(g, stones, pid, n).error
    decreases |stones|
  {
    if |stones| > 0 {
      LegalMoveScansAgree(g, stones[..|stones| - 1], pid, n);
    }
  }

  /** The base PickStoneToMove: the stone at the drawn index, which
      `Random.Range(0, count)` keeps inside the list. */
  function PickStoneToMove(legal: seq<StoneId>, draw: int): (k: StoneId)
    requires 0 <= draw < |legal|
    ensures k in legal
  {
    legal[draw]
  }

  /** A random index: for a list of m > 0 stones, `Random.Range(0, m)`. */
  type Draw = nat -> nat

  ghost predicate DrawInRange(draw: Draw) {
    forall m: nat :: 0 < m ==> draw(m) < m
  }

  /** DoClick: with no legal stone nothing is clicked; otherwise the stone
      the random index picks among the legal ones. */
  function DoClick(s: TurnState, g: Game, draw: Draw): (r: Result<Option<StoneId>>)
    requires ValidBoard(g) && DrawInRange(draw)
    ensures r.Err? <==> GetLegalMoves(s, g).Err?
    ensures r.Ok? ==> (r.value.None? <==> GetLegalMoves(s, g).value == [])
    ensures r.Ok? && r.value.Some? ==>
              s.diceTotal != 0 && r.value.value < |g.stones| && Movable(g, r.value.value, s.currentPlayerId, s.diceTotal)
  {
    var legal :- GetLegalMoves(s, g);
    if |legal| == 0 then Ok(None)
    else Ok(Some(PickStoneToMove(legal, draw(|legal|))))
  }
}
