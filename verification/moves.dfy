/** The board-state effect of clicking a stone (PlayerStone.OnMouseUp in
    Assets/Scripts/PlayerStone.cs): the guards that ignore the click, and the
    move that vacates the old tile, knocks off an enemy and occupies the
    destination.  The animation the move starts is not part of the model. */
module Moves {
  import opened Outcomes
  import opened Board
  import opened Paths
  import opened Turns

  /** The click is ignored unless it is this stone's player's turn, the dice
      have been rolled, no move has been made yet and the roll is not zero. */
  predicate ClickAccepted(s: TurnState, me: Stone) {
    s.currentPlayerId == me.playerId && s.isDoneRolling && !s.isDoneClicking && s.diceTotal != 0
  }

  /** Knocks the stone on tile `t`, if any, off the board: its tile is
      emptied and it loses its position.  A stone that is recorded on a tile
      but has no position of its own is a null dereference. */
  function Bop(g: Game, t: TileId): (r: Result<Game>)
    requires ValidBoard(g) && t < |g.tiles|
    ensures g.tiles[t].stone.None? ==> r == Ok(g)
    ensures r.Err? <==> g.tiles[t].stone.Some? && g.stones[g.tiles[t].stone.value].currentTile.None?
    ensures r.Err? ==> r.error == NullReference
    ensures r.Ok? ==> ValidBoard(r.value) && |r.value.tiles| == |g.tiles| && |r.value.stones| == |g.stones|
    ensures r.Ok? && g.tiles[t].stone.Some? ==>
      var j := g.tiles[t].stone.value;
      var prev := g.stones[j].currentTile.value;
      r.value.stones[j].currentTile.None? && r.value.tiles[prev].stone.None? &&
      (forall u :: 0 <= u < |g.tiles| && u != prev ==> r.value.tiles[u] == g.tiles[u]) &&
      (forall i :: 0 <= i < |g.stones| && i != j ==> r.value.stones[i] == g.stones[i])
  {
    if g.tiles[t].stone.None? then Ok(g)
    else
      var j := g.tiles[t].stone.value;
      var prev := g.stones[j].currentTile;
      if prev.None? then Err(NullReference)
      else Ok(SetPosition(SetOccupant(g, prev.value, None), j, None))
  }

  /** OnMouseUp: the new turn state and board after a click on stone `k`.
      A move that runs off the end of the path leaves a null destination,
      which the original goes on to dereference. */
  function OnMouseUp(s: TurnState, g: Game, k: StoneId): (r: Result<(TurnState, Game)>)
    requires ValidBoard(g) && k < |g.stones|
    ensures !ClickAccepted(s, g.stones[k]) ==> r == Ok((s, g))
    ensures r.Ok? ==> ValidBoard(r.value.1) && |r.value.1.tiles| == |g.tiles| && |r.value.1.stones| == |g.stones|
    ensures r.Ok? && r.value != (s, g) ==> r.value.0 == s.(isDoneClicking := true)
  {
    var me := g.stones[k];
    if !ClickAccepted(s, me) then Ok((s, g))
    else
      var queue :- TilesAhead(g, me, s.diceTotal);
      var final := queue.value[|queue.value| - 1];
      if final.None? then Err(NullReference)
      else if !CanLegallyMoveTo(g, me.playerId, final) then Ok((s, g))
      else
        var moved :- MoveStone(g, k, final.value);
        Ok((s.(isDoneClicking := true), moved))
  }

  /** The three board updates of a move of stone `k` to tile `t`, in the
      original's order: bop the occupant, leave the current tile, occupy `t`. */
  function MoveStone(g: Game, k: StoneId, t: TileId): (r: Result<Game>)
    requires ValidBoard(g) && k < |g.stones| && t < |g.tiles|
    ensures r.Err? <==> Bop(g, t).Err?
    ensures r.Ok? ==> ValidBoard(r.value) && |r.value.tiles| == |g.tiles| && |r.value.stones| == |g.stones|
    ensures r.Ok? ==> r.value.tiles[t].stone == Some(k) && r.value.stones[k].currentTile == Some(t)
  {
    var bopped :- Bop(g, t);
    var vacated := if bopped.stones[k].currentTile.Some?
                   then SetOccupant(bopped, bopped.stones[k].currentTile.value, None)
                   else bopped;
    Ok(SetPosition(SetOccupant(vacated, t, Some(k)), k, Some(t)))
  }

  // ----- properties of a move -----

  /** The destination a click would move stone `k` to. */
  function Destination(s: TurnState, g: Game, k: StoneId): Result<Option<TileId>>
    requires ValidBoard(g) && k < |g.stones|
  {
    TileAhead(g, g.stones[k], s.diceTotal)
  }

  /** A click that moves a stone past the end of the path fails: the scoring
      case dereferences the missing final tile. */
  lemma ScoringDereferencesNull(s: TurnState, g: Game, k: StoneId)
    requires ValidBoard(g) && k < |g.stones| && ClickAccepted(s, g.stones[k])
    requires Destination(s, g, k) == Ok(None)
    ensures OnMouseUp(s, g, k) == Err(NullReference)
  {
  }

  /** An illegal destination leaves the turn and the board as they were. */
  lemma IllegalClickChangesNothing(s: TurnState, g: Game, k: StoneId)
    requires ValidBoard(g) && k < |g.stones| && ClickAccepted(s, g.stones[k])
    requires Destination(s, g, k).Ok? && Destination(s, g, k).value.Some?
    requires !CanLegallyMoveTo(g, g.stones[k].playerId, Destination(s, g, k).value)
    ensures OnMouseUp(s, g, k) == Ok((s, g))
  {
  }

  /** What a move does on a consistent board, when the destination holds
      no stone of the mover: the move cannot fail, the stone stands on its
      destination, the tile it left is empty, a stone it landed on is off the
      board, and no other tile or stone changes. */
  lemma MoveStoneEffect(g: Game, k: StoneId, t: TileId)
    requires ValidBoard(g) && Consistent(g) && k < |g.stones| && t < |g.tiles|
    requires g.tiles[t].stone != Some(k)
    ensures MoveStone(g, k, t).Ok?
    ensures
      var g' := MoveStone(g, k, t).value;
      var from := g.stones[k].currentTile;
      var victim := g.tiles[t].stone;
      (from.Some? ==> from.value != t && g'.tiles[from.value].stone.None?) &&
      (victim.Some? ==> victim.value != k && g'.stones[victim.value].currentTile.None?) &&
      (forall u :: 0 <= u < |g.tiles| && u != t && Some(u) != from ==> g'.tiles[u] == g.tiles[u]) &&
      (forall i :: 0 <= i < |g.stones| && i != k && Some(i) != victim ==> g'.stones[i] == g.stones[i])
  {
    var victim := g.tiles[t].stone;
    if victim.Some? {
      assert g.stones[victim.value].currentTile == Some(t);
    }
    var bopped := Bop(g, t).value;
    assert bopped.stones[k] == g.stones[k];
  }

  /** A move keeps tile occupancy and stone positions in agreement. */
  lemma MoveStoneKeepsConsistent(g: Game, k: StoneId, t: TileId)
    requires ValidBoard(g) && Consistent(g) && k < |g.stones| && t < |g.tiles|
    requires g.tiles[t].stone != Some(k)
    ensures MoveStone(g, k, t).Ok? && Consistent(MoveStone(g, k, t).value)
  {
    MoveStoneEffect(g, k, t);
    var g' := MoveStone(g, k, t).value;
    var from := g.stones[k].currentTile;
    var victim := g.tiles[t].stone;
    forall u | 0 <= u < |g'.tiles| && g'.tiles[u].stone.Some?
      ensures g'.stones[g'.tiles[u].stone.value].currentTile == Some(u)
    {
      if u != t {
        assert g'.tiles[u] == g.tiles[u];
        var j := g.tiles[u].stone.value;
        assert g.stones[j].currentTile == Some(u);
        assert j != k && Some(j) != victim;
      }
    }
    forall i | 0 <= i < |g'.stones| && g'.stones[i].currentTile.Some?
      ensures g'.tiles[g'.stones[i].currentTile.value].stone == Some(i)
    {
      if i != k {
        assert Some(i) != victim && g'.stones[i] == g.stones[i];
        var u := g.stones[i].currentTile.value;
        assert g.tiles[u].stone == Some(i);
        assert u != t && Some(u) != from;
      }
    }
  }

  /** An accepted click on a consistent board with a legal destination moves
      the stone there, marks the move made, and keeps the board consistent;
      the enemy stone it lands on, if any, is the one knocked off. */
  lemma MoveEffect(s: TurnState, g: Game, k: StoneId)
    requires ValidBoard(g) && Consistent(g) && k < |g.stones| && ClickAccepted(s, g.stones[k])
    requires Destination(s, g, k).Ok? && Destination(s, g, k).value.Some?
    requires CanLegallyMoveTo(g, g.stones[k].playerId, Destination(s, g, k).value)
    ensures var t := Destination(s, g, k).value.value;
            OnMouseUp(s, g, k) == Ok((s.(isDoneClicking := true), MoveStone(g, k, t).value)) &&
            Consistent(MoveStone(g, k, t).value) &&
            (g.tiles[t].stone.Some? ==> g.stones[g.tiles[t].stone.value].playerId != g.stones[k].playerId)
  {
    var t := Destination(s, g, k).value.value;
    assert g.tiles[t].stone != Some(k);
    MoveStoneKeepsConsistent(g, k, t);
  }
}
