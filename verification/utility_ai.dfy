/** The scoring computer player of Assets/Scripts/AIPlayer_UtilityAI.cs: a
    danger value per tile, a goodness score per candidate stone, and the
    choice of the best-scoring stone.  `float` arithmetic is exact `real`
    arithmetic here.  The current and future tile of each candidate are
    inputs, given in the order of the candidates. */
module UtilityAi {
  import opened Outcomes
  import opened Board
  import opened Paths
  import opened Turns
  import opened Ai

  /** A tile where an enemy cannot be knocked off, so it carries no danger. */
  predicate IsSafe(t: Tile) {
    t.isScoringSpace || t.isSideline || t.isRollAgain
  }

  /** The danger an enemy adds to a tile i moves ahead of it: two moves is
      the likeliest roll. */
  function DangerWeight(i: nat): real {
    if i == 2 then 0.3 else 0.2
  }

  /** The most one enemy can still add to any tile from distance i on. */
  function RemainingWeight(i: nat): (w: real)
    ensures 0.0 <= w
    decreases 5 - i
  {
    if i > 4 then 0.0 else DangerWeight(i) + RemainingWeight(i + 1)
  }

  /** One enemy adds at most 0.9 to a tile over its four look-aheads. */
  lemma OneEnemyAddsAtMost()
    ensures RemainingWeight(1) == 0.9
  {
    assert RemainingWeight(4) == 0.2;
    assert RemainingWeight(2) == 0.7;
  }

  /** The danger one enemy stone adds to the tiles 1 to 4 moves ahead of it,
      from distance i on: the scan stops at the first null and passes over
      safe tiles. */
  function AddStoneDanger(g: Game, danger: seq<real>, s: Stone, i: nat): (r: Result<seq<real>>)
    requires ValidBoard(g) && StoneFits(g, s) && |danger| == |g.tiles| && 1 <= i
    ensures r.Ok? ==> |r.value| == |danger|
    ensures r.Ok? ==> forall t :: 0 <= t < |danger| ==> danger[t] <= r.value[t] <= danger[t] + RemainingWeight(i)
    ensures r.Ok? ==> forall t :: 0 <= t < |danger| && IsSafe(g.tiles[t]) ==> r.value[t] == danger[t]
    ensures r.Err? ==> r.error == IndexOutOfRange
    decreases 5 - i
  {
    if i > 4 then Ok(danger)
    else
      var t :- TileAhead(g, s, i);
      if t.None? then Ok(danger)
      else if IsSafe(g.tiles[t.value]) then AddStoneDanger(g, danger, s, i + 1)
      else AddStoneDanger(g, danger[t.value := danger[t.value] + DangerWeight(i)], s, i + 1)
  }

  /** Whether the look-ahead of an enemy whose next moves pass over `w`
      reaches tile t at distance k: every look-ahead before k found a tile,
      and the one at k is t. */
  predicate Reaches(w: seq<Option<TileId>>, t: TileId, k: nat)
    requires 1 <= k <= |w|
  {
    (forall j :: 0 <= j < k ==> w[j].Some?) && w[k - 1] == Some(t)
  }

  /** The reference danger that enemy adds to tile t from distance i on:
      the weight of every distance at which its look-ahead reaches t. */
  function ReachedWeight(w: seq<Option<TileId>>, t: TileId, i: nat): (d: real)
    requires 1 <= i
    ensures 0.0 <= d
    decreases |w| + 1 - i
  {
    if i > |w| then 0.0
    else (if Reaches(w, t, i) then DangerWeight(i) else 0.0) + ReachedWeight(w, t, i + 1)
  }

  /** Past a null look-ahead no distance reaches any tile. */
  lemma {:induction false} NullEndsReach(w: seq<Option<TileId>>, t: TileId, i: nat, k: nat)
    requires 1 <= k <= i && k <= |w| && w[k - 1].None?
    ensures ReachedWeight(w, t, i) == 0.0
    decreases |w| + 1 - i
  {
    if i <= |w| {
      assert !Reaches(w, t, i) by {
        if i > k {
          assert w[k - 1].None?;
        }
      }
      NullEndsReach(w, t, i + 1, k);
    }
  }

  /** A tile that no distance reaches gets no weight. */
  lemma {:induction false} UnreachedWeighsNothing(w: seq<Option<TileId>>, t: TileId, i: nat)
    requires 1 <= i
    requires forall k :: i <= k <= |w| ==> !Reaches(w, t, k)
    ensures ReachedWeight(w, t, i) == 0.0
    decreases |w| + 1 - i
  {
    if i <= |w| {
      UnreachedWeighsNothing(w, t, i + 1);
    }
  }

  /** From distance i on, with every earlier look-ahead non-null, the scan
      adds to each unsafe tile exactly the weight of the distances at which
      the four tiles ahead reach it, and leaves safe tiles alone. */
  lemma {:induction false} AddStoneDangerIsReachedWeight(g: Game, danger: seq<real>, s: Stone, i: nat, w: seq<Option<TileId>>)
    requires ValidBoard(g) && StoneFits(g, s) && |danger| == |g.tiles| && 1 <= i <= 5
    requires TilesAhead(g, s, 4) == Ok(Some(w))
    requires forall j :: 0 <= j < i - 1 ==> w[j].Some?
    ensures AddStoneDanger(g, danger, s, i).Ok?
    ensures forall t :: 0 <= t < |danger| ==>
              AddStoneDanger(g, danger, s, i).value[t] ==
              danger[t] + (if IsSafe(g.tiles[t]) then 0.0 else ReachedWeight(w, t, i))
    decreases 5 - i
  {
    if i <= 4 {
      TileAheadInWalk(g, s, 4, i, w);
      if w[i - 1].None? {
        forall t | 0 <= t < |danger|
          ensures ReachedWeight(w, t, i) == 0.0
        {
          NullEndsReach(w, t, i, i);
        }
      } else {
        var u := w[i - 1].value;
        var next := if IsSafe(g.tiles[u]) then danger else danger[u := danger[u] + DangerWeight(i)];
        assert AddStoneDanger(g, danger, s, i) == AddStoneDanger(g, next, s, i + 1);
        assert |next| == |g.tiles|;
        assert forall j :: 0 <= j < i ==> w[j].Some? by {
          forall j | 0 <= j < i
            ensures w[j].Some?
          {
            if j == i - 1 {
              assert w[j] == Some(u);
            }
          }
        }
        AddStoneDangerIsReachedWeight(g, next, s, i + 1, w);
        var r := AddStoneDanger(g, next, s, i + 1).value;
        forall t | 0 <= t < |danger|
          ensures r[t] == danger[t] + (if IsSafe(g.tiles[t]) then 0.0 else ReachedWeight(w, t, i))
        {
          ReachedAt(w, t, i, u);
        }
      }
    }
  }

  /** The look-ahead at distance i, after non-null ones, reaches only the
      tile found there. */
  lemma ReachedAt(w: seq<Option<TileId>>, t: TileId, i: nat, u: TileId)
    requires 1 <= i <= |w| && w[i - 1] == Some(u)
    requires forall j :: 0 <= j < i - 1 ==> w[j].Some?
    ensures ReachedWeight(w, t, i) == (if t == u then DangerWeight(i) else 0.0) + ReachedWeight(w, t, i + 1)
  {
    assert Reaches(w, t, i) <==> t == u;
  }

  /** One enemy's look-ahead, as a whole: each unsafe tile gets the weight of
      the distances 1 to 4 at which the enemy's moves reach it before the
      first null, a tile it never reaches keeps its danger, and so does every
      safe tile. */
  lemma StoneDangerIsReachedWeight(g: Game, danger: seq<real>, s: Stone, w: seq<Option<TileId>>)
    requires ValidBoard(g) && StoneFits(g, s) && |danger| == |g.tiles|
    requires TilesAhead(g, s, 4) == Ok(Some(w))
    ensures AddStoneDanger(g, danger, s, 1).Ok?
    ensures forall t :: 0 <= t < |danger| && !IsSafe(g.tiles[t]) ==>
              AddStoneDanger(g, danger, s, 1).value[t] == danger[t] + ReachedWeight(w, t, 1)
    ensures forall t :: 0 <= t < |danger| && (forall k :: 1 <= k <= 4 ==> !Reaches(w, t, k)) ==>
              AddStoneDanger(g, danger, s, 1).value[t] == danger[t]
  {
    AddStoneDangerIsReachedWeight(g, danger, s, 1, w);
    forall t | 0 <= t < |danger| && (forall k :: 1 <= k <= 4 ==> !Reaches(w, t, k))
      ensures ReachedWeight(w, t, 1) == 0.0
    {
      UnreachedWeighsNothing(w, t, 1);
    }
  }

  /** Every tile starts with no danger. */
  function NoDanger(g: Game): (d: seq<real>)
    ensures |d| == |g.tiles| && forall t :: 0 <= t < |d| ==> d[t] == 0.0
  {
    seq(|g.tiles|, _ => 0.0)
  }

  /** The danger the enemies among `stones` put on each tile; the player's
      own stones are passed over. */
  function DangerFrom(g: Game, stones: seq<StoneId>, pid: int): (r: Result<seq<real>>)
    requires ValidBoard(g) && InGame(g, stones)
    ensures r.Ok? ==> |r.value| == |g.tiles|
    ensures r.Ok? ==> forall t :: 0 <= t < |g.tiles| ==> r.value[t] >= 0.0
    ensures r.Ok? ==> forall t :: 0 <= t < |g.tiles| && IsSafe(g.tiles[t]) ==> r.value[t] == 0.0
    decreases |stones|
  {
    if |stones| == 0 then Ok(NoDanger(g))
    else
      var before :- DangerFrom(g, stones[..|stones| - 1], pid);
      var s := g.stones[stones[|stones| - 1]];
      if s.playerId == pid then Ok(before) else AddStoneDanger(g, before, s, 1)
  }

  /** CalcTileDanger for player `pid`, over every stone of the game. */
  function CalcTileDanger(g: Game, pid: int): (r: Result<seq<real>>)
    requires ValidBoard(g)
    ensures r.Ok? ==> |r.value| == |g.tiles|
    ensures r.Ok? ==> forall t :: 0 <= t < |g.tiles| ==> r.value[t] >= 0.0
    ensures r.Ok? ==> forall t :: 0 <= t < |g.tiles| && IsSafe(g.tiles[t]) ==> r.value[t] == 0.0
  {
    DangerFrom(g, AllStones(g), pid)
  }

  /** The weight one stone's look-ahead gives tile t: nothing when its four
      tiles ahead cannot be computed. */
  function LookAheadWeight(g: Game, s: Stone, t: TileId): (d: real)
    requires ValidBoard(g) && StoneFits(g, s)
    ensures 0.0 <= d
  {
    match TilesAhead(g, s, 4)
    case Ok(Some(w)) => ReachedWeight(w, t, 1)
    case _ => 0.0
  }

  /** The reference danger of tile t: the sum, over the enemies among
      `stones`, of the weight each one's look-ahead gives t. */
  function EnemyWeight(g: Game, stones: seq<StoneId>, pid: int, t: TileId): (d: real)
    requires ValidBoard(g) && InGame(g, stones)
    ensures 0.0 <= d
    decreases |stones|
  {
    if |stones| == 0 then 0.0
    else
      var s := g.stones[stones[|stones| - 1]];
      EnemyWeight(g, stones[..|stones| - 1], pid, t) + (if s.playerId == pid then 0.0 else LookAheadWeight(g, s, t))
  }

  /** Whether every enemy among `stones` can look four tiles ahead. */
  predicate EnemiesLookAhead(g: Game, stones: seq<StoneId>, pid: int)
    requires ValidBoard(g) && InGame(g, stones)
  {
    forall i :: 0 <= i < |stones| && g.stones[stones[i]].playerId != pid ==> TilesAhead(g, g.stones[stones[i]], 4).Ok?
  }

  /** When every enemy can look ahead, the danger of each unsafe tile is the
      reference sum of the enemies' weights, and a safe tile has none. */
  lemma {:induction false} DangerFromIsEnemyWeight(g: Game, stones: seq<StoneId>, pid: int)
    requires ValidBoard(g) && InGame(g, stones) && EnemiesLookAhead(g, stones, pid)
    ensures DangerFrom(g, stones, pid).Ok?
    ensures forall t :: 0 <= t < |g.tiles| ==>
              DangerFrom(g, stones, pid).value[t] == (if IsSafe(g.tiles[t]) then 0.0 else EnemyWeight(g, stones, pid, t))
    decreases |stones|
  {
    if |stones| > 0 {
      var m := |stones| - 1;
      var prefix := stones[..m];
      assert EnemiesLookAhead(g, prefix, pid) by {
        forall i | 0 <= i < |prefix|
          ensures prefix[i] == stones[i]
        {
        }
      }
      DangerFromIsEnemyWeight(g, prefix, pid);
      var before := DangerFrom(g, prefix, pid).value;
      var s := g.stones[stones[m]];
      if s.playerId != pid {
        var w := TilesAhead(g, s, 4).value.value;
        StoneDangerIsReachedWeight(g, before, s, w);
      }
    }
  }

  /** CalcTileDanger as the reference sum over every enemy stone. */
  lemma CalcTileDangerIsEnemyWeight(g: Game, pid: int)
    requires ValidBoard(g)
    requires forall k :: 0 <= k < |g.stones| && g.stones[k].playerId != pid ==> TilesAhead(g, g.stones[k], 4).Ok?
    ensures CalcTileDanger(g, pid).Ok?
    ensures forall t :: 0 <= t < |g.tiles| ==>
              CalcTileDanger(g, pid).value[t] == (if IsSafe(g.tiles[t]) then 0.0 else EnemyWeight(g, AllStones(g), pid, t))
  {
    DangerFromIsEnemyWeight(g, AllStones(g), pid);
  }

  /** The enemy stones of `stones`, in order. */
  function Enemies(g: Game, stones: seq<StoneId>, pid: int): (es: seq<StoneId>)
    requires InGame(g, stones)
    ensures InGame(g, es) && forall i :: 0 <= i < |es| ==> g.stones[es[i]].playerId != pid
    ensures forall k :: k in es <==> k in stones && g.stones[k].playerId != pid
    decreases |stones|
  {
    if |stones| == 0 then []
    else
      var before := Enemies(g, stones[..|stones| - 1], pid);
      var k := stones[|stones| - 1];
      if g.stones[k].playerId == pid then before else before + [k]
  }

  /** The player's own stones make no difference to the danger values: the
      result is that of the enemy stones alone. */
  lemma {:induction false} OwnStonesIgnored(g: Game, stones: seq<StoneId>, pid: int)
    requires ValidBoard(g) && InGame(g, stones)
    ensures DangerFrom(g, stones, pid) == DangerFrom(g, Enemies(g, stones, pid), pid)
    decreases |stones|
  {
    if |stones| > 0 {
      var prefix := stones[..|stones| - 1];
      OwnStonesIgnored(g, prefix, pid);
      var before := Enemies(g, prefix, pid);
      var k := stones[|stones| - 1];
      if g.stones[k].playerId != pid {
        assert (before + [k])[..|before|] == before;
      }
    }
  }

  /** GetStoneGoodness: +0.2 for entering the board, −0.1 for leaving a
      shared roll-again tile, +0.5 each for landing on a roll-again tile, on
      an enemy and on the scoring space, plus the danger left behind minus
      the danger moved into.  A null future tile is dereferenced. */
  function GetStoneGoodness(g: Game, danger: seq<real>, s: Stone, current: Option<TileId>, future: Option<TileId>): (r: Result<real>)
    requires ValidBoard(g) && |danger| == |g.tiles| && TileFits(g, current) && TileFits(g, future)
    ensures r.Err? <==> future.None?
    ensures r.Err? ==> r.error == NullReference
    ensures r.Ok? ==>
      var change := (if current.Some? then danger[current.value] else 0.0) - danger[future.value];
      -0.1 <= r.value - change <= 1.7 &&
      (current.None? ==> 0.2 <= r.value - change)
  {
    var goodness := 0.0;
    var goodness := if current.None? then goodness + 0.20 else goodness;
    var goodness := if current.Some? && g.tiles[current.value].isRollAgain && !g.tiles[current.value].isSideline
                    then goodness - 0.10 else goodness;
    if future.None? then Err(NullReference)
    else
      var ft := g.tiles[future.value];
      var goodness := if ft.isRollAgain then goodness + 0.50 else goodness;
      var goodness := if ft.stone.Some? && g.stones[ft.stone.value].playerId != s.playerId
                      then goodness + 0.50 else goodness;
      var goodness := if ft.isScoringSpace then goodness + 0.50 else goodness;
      var currentDanger := if current.Some? then danger[current.value] else 0.0;
      Ok(goodness + (currentDanger - danger[future.value]))
  }

  /** Landing on an enemy is worth exactly 0.5 more than landing on the same
      tile when it is empty. */
  lemma BopWorthHalf(g: Game, danger: seq<real>, s: Stone, current: Option<TileId>, t: TileId, e: StoneId)
    requires ValidBoard(g) && |danger| == |g.tiles| && TileFits(g, current) && t < |g.tiles|
    requires e < |g.stones| && g.stones[e].playerId != s.playerId
    ensures ValidBoard(SetOccupant(g, t, Some(e))) && ValidBoard(SetOccupant(g, t, None))
    ensures GetStoneGoodness(SetOccupant(g, t, Some(e)), danger, s, current, Some(t)).value ==
            GetStoneGoodness(SetOccupant(g, t, None), danger, s, current, Some(t)).value + 0.5
  {
  }

  /** A plain move, from a tile that is not a live roll-again tile onto an
      empty tile without marks, scores exactly the danger it leaves behind
      minus the danger it walks into; with no danger about, it scores 0. */
  lemma PlainMoveScoresDangerChange(g: Game, danger: seq<real>, s: Stone, c: TileId, t: TileId)
    requires ValidBoard(g) && |danger| == |g.tiles| && c < |g.tiles| && t < |g.tiles|
    requires !g.tiles[c].isRollAgain || g.tiles[c].isSideline
    requires !g.tiles[t].isRollAgain && !g.tiles[t].isScoringSpace && g.tiles[t].stone.None?
    ensures GetStoneGoodness(g, danger, s, Some(c), Some(t)) == Ok(danger[c] - danger[t])
    ensures danger[c] == 0.0 && danger[t] == 0.0 ==> GetStoneGoodness(g, danger, s, Some(c), Some(t)) == Ok(0.0)
  {
  }

  /** The board with the roll-again mark of tile t set to b. */
  function WithRollAgain(g: Game, t: TileId, b: bool): (r: Game)
    requires t < |g.tiles|
    ensures |r.tiles| == |g.tiles| && r.stones == g.stones && r.tiles[t].isRollAgain == b
    ensures forall u :: 0 <= u < |g.tiles| && u != t ==> r.tiles[u] == g.tiles[u]
    ensures ValidBoard(g) ==> ValidBoard(r)
  {
    g.(tiles := g.tiles[t := g.tiles[t].(isRollAgain := b)])
  }

  /** The board with the scoring mark of tile t set to b. */
  function WithScoring(g: Game, t: TileId, b: bool): (r: Game)
    requires t < |g.tiles|
    ensures |r.tiles| == |g.tiles| && r.stones == g.stones && r.tiles[t].isScoringSpace == b
    ensures forall u :: 0 <= u < |g.tiles| && u != t ==> r.tiles[u] == g.tiles[u]
    ensures ValidBoard(g) ==> ValidBoard(r)
  {
    g.(tiles := g.tiles[t := g.tiles[t].(isScoringSpace := b)])
  }

  /** Entering the board is worth 0.2 more than leaving a tile that carries
      no danger and no roll-again penalty. */
  lemma EnteringWorthFifth(g: Game, danger: seq<real>, s: Stone, c: TileId, f: TileId)
    requires ValidBoard(g) && |danger| == |g.tiles| && c < |g.tiles| && f < |g.tiles|
    requires !(g.tiles[c].isRollAgain && !g.tiles[c].isSideline) && danger[c] == 0.0
    ensures GetStoneGoodness(g, danger, s, None, Some(f)).value ==
            GetStoneGoodness(g, danger, s, Some(c), Some(f)).value + 0.2
  {
  }

  /** Leaving a roll-again tile costs 0.1 against leaving the same tile
      unmarked, unless it lies on the player's own sideline. */
  lemma LeavingRollAgainCostsTenth(g: Game, danger: seq<real>, s: Stone, c: TileId, f: TileId)
    requires ValidBoard(g) && |danger| == |g.tiles| && c < |g.tiles| && f < |g.tiles| && c != f
    requires g.tiles[c].isRollAgain
    ensures ValidBoard(WithRollAgain(g, c, false))
    ensures GetStoneGoodness(g, danger, s, Some(c), Some(f)).value ==
            GetStoneGoodness(WithRollAgain(g, c, false), danger, s, Some(c), Some(f)).value -
            (if g.tiles[c].isSideline then 0.0 else 0.1)
  {
  }

  /** Landing on a roll-again tile is worth 0.5 more than landing on the same
      tile unmarked. */
  lemma RollAgainLandingWorthHalf(g: Game, danger: seq<real>, s: Stone, current: Option<TileId>, f: TileId)
    requires ValidBoard(g) && |danger| == |g.tiles| && TileFits(g, current) && f < |g.tiles| && current != Some(f)
    requires g.tiles[f].isRollAgain
    ensures ValidBoard(WithRollAgain(g, f, false))
    ensures GetStoneGoodness(g, danger, s, current, Some(f)).value ==
            GetStoneGoodness(WithRollAgain(g, f, false), danger, s, current, Some(f)).value + 0.5
  {
  }

  /** Landing on the scoring space is worth 0.5 more than landing on the same
      tile unmarked. */
  lemma ScoringWorthHalf(g: Game, danger: seq<real>, s: Stone, current: Option<TileId>, f: TileId)
    requires ValidBoard(g) && |danger| == |g.tiles| && TileFits(g, current) && f < |g.tiles| && current != Some(f)
    requires g.tiles[f].isScoringSpace
    ensures ValidBoard(WithScoring(g, f, false))
    ensures GetStoneGoodness(g, danger, s, current, Some(f)).value ==
            GetStoneGoodness(WithScoring(g, f, false), danger, s, current, Some(f)).value + 0.5
  {
  }

  /** Less danger at the destination never makes a stone look worse. */
  lemma SaferDestinationScoresHigher(g: Game, d1: seq<real>, d2: seq<real>, s: Stone, current: Option<TileId>, t: TileId)
    requires ValidBoard(g) && |d1| == |g.tiles| && |d2| == |g.tiles| && TileFits(g, current) && t < |g.tiles|
    requires d1[t] <= d2[t] && (current.Some? ==> current.value != t && d1[current.value] == d2[current.value])
    ensures GetStoneGoodness(g, d1, s, current, Some(t)).value >= GetStoneGoodness(g, d2, s, current, Some(t)).value
    ensures GetStoneGoodness(g, d1, s, current, Some(t)).value ==
            GetStoneGoodness(g, d2, s, current, Some(t)).value + (d2[t] - d1[t])
  {
  }

  /** The danger left behind counts with weight one: with the destination's
      danger unchanged, the score moves by exactly the change in the danger
      of the current tile. */
  lemma DangerLeftBehindCounts(g: Game, d1: seq<real>, d2: seq<real>, s: Stone, c: TileId, t: TileId)
    requires ValidBoard(g) && |d1| == |g.tiles| && |d2| == |g.tiles| && c < |g.tiles| && t < |g.tiles|
    requires c != t && d1[t] == d2[t]
    ensures GetStoneGoodness(g, d1, s, Some(c), Some(t)).value ==
            GetStoneGoodness(g, d2, s, Some(c), Some(t)).value + (d1[c] - d2[c])
  {
  }

  /** Both danger terms together: for any two danger maps the scores differ
      by the difference in the danger left behind minus the difference in
      the danger moved into, and by nothing else. */
  lemma DangerChangeWeighsOne(g: Game, d1: seq<real>, d2: seq<real>, s: Stone, current: Option<TileId>, t: TileId)
    requires ValidBoard(g) && |d1| == |g.tiles| && |d2| == |g.tiles| && TileFits(g, current) && t < |g.tiles|
    ensures GetStoneGoodness(g, d1, s, current, Some(t)).value ==
            GetStoneGoodness(g, d2, s, current, Some(t)).value +
            ((if current.Some? then d1[current.value] - d2[current.value] else 0.0) - (d1[t] - d2[t]))
  {
  }

  /** The goodness of each candidate stone, in order, from the current and
      future tile given for it; the first candidate with a null future tile
      fails the scan. */
  function Scores(g: Game, danger: seq<real>, legal: seq<StoneId>, current: seq<Option<TileId>>, future: seq<Option<TileId>>): (r: Result<seq<real>>)
    requires ValidBoard(g) && |danger| == |g.tiles| && InGame(g, legal)
    requires |current| == |legal| && |future| == |legal|
    requires forall i :: 0 <= i < |legal| ==> TileFits(g, current[i]) && TileFits(g, future[i])
    ensures r.Err? <==> exists i :: 0 <= i < |legal| && future[i].None?
    ensures r.Ok? ==> |r.value| == |legal|
    ensures r.Ok? ==> forall i :: 0 <= i < |legal| ==>
              r.value[i] == GetStoneGoodness(g, danger, g.stones[legal[i]], current[i], future[i]).value
    decreases |legal|
  {
    if |legal| == 0 then Ok([])
    else
      var m := |legal| - 1;
      var before :- Scores(g, danger, legal[..m], current[..m], future[..m]);
      var last :- GetStoneGoodness(g, danger, g.stones[legal[m]], current[m], future[m]);
      Ok(before + [last])
  }

  /** Position k holds a maximal score and every earlier score is smaller. */
  predicate FirstBest(xs: seq<real>, k: nat) {
    k < |xs| && (forall j :: 0 <= j < |xs| ==> xs[j] <= xs[k]) && (forall j :: 0 <= j < k ==> xs[j] < xs[k])
  }

  /** The scan for the best score from position i on, with the best so far
      at `best`: a later score replaces it only when strictly greater. */
  function FirstMaxFrom(xs: seq<real>, i: nat, best: nat): (k: nat)
    requires best < i <= |xs|
    requires forall j :: 0 <= j < i ==> xs[j] <= xs[best]
    requires forall j :: 0 <= j < best ==> xs[j] < xs[best]
    ensures FirstBest(xs, k)
    decreases |xs| - i
  {
    if i == |xs| then best
    else if xs[i] > xs[best] then FirstMaxFrom(xs, i + 1, i)
    else FirstMaxFrom(xs, i + 1, best)
  }

  /** The position of the first maximal score. */
  function FirstMax(xs: seq<real>): (k: nat)
    requires |xs| > 0
    ensures FirstBest(xs, k)
  {
    FirstMaxFrom(xs, 1, 0)
  }

  /** There is exactly one first maximal position. */
  lemma FirstBestUnique(xs: seq<real>, k1: nat, k2: nat)
    requires FirstBest(xs, k1) && FirstBest(xs, k2)
    ensures k1 == k2
  {
    assert xs[k1] == xs[k2];
  }

  /** PickStoneToMove: no stone for no candidates; otherwise the danger map
      of the first candidate's player, the candidates' scores, and the
      first candidate with the best score. */
  function PickStoneToMove(g: Game, legal: seq<StoneId>, current: seq<Option<TileId>>, future: seq<Option<TileId>>): (r: Result<Option<StoneId>>)
    requires ValidBoard(g) && InGame(g, legal)
    requires |current| == |legal| && |future| == |legal|
    requires forall i :: 0 <= i < |legal| ==> TileFits(g, current[i]) && TileFits(g, future[i])
    ensures |legal| == 0 ==> r == Ok(None)
    ensures |legal| > 0 && r.Ok? ==>
      var danger := CalcTileDanger(g, g.stones[legal[0]].playerId);
      danger.Ok? && Scores(g, danger.value, legal, current, future).Ok? &&
      exists i: nat :: i < |legal| && FirstBest(Scores(g, danger.value, legal, current, future).value, i) && r.value == Some(legal[i])
    ensures |legal| > 0 && (exists i :: 0 <= i < |legal| && future[i].None?) ==> r.Err?
    ensures |legal| > 0 && CalcTileDanger(g, g.stones[legal[0]].playerId).Err? ==> r.Err?
    ensures (&& |legal| > 0 && CalcTileDanger(g, g.stones[legal[0]].playerId).Ok?
             && forall i :: 0 <= i < |legal| ==> future[i].Some?) ==> r.Ok? && r.value.Some?
  {
    if |legal| == 0 then Ok(None)
    else
      var danger :- CalcTileDanger(g, g.stones[legal[0]].playerId);
      var scores :- Scores(g, danger, legal, current, future);
      Ok(Some(legal[FirstMax(scores)]))
  }

  /** Ties go to the earliest candidate: with equal scores the first stone wins. */
  lemma TiesGoToFirst(xs: seq<real>)
    requires |xs| > 0 && forall j :: 0 <= j < |xs| ==> xs[j] == xs[0]
    ensures FirstMax(xs) == 0
  {
    FirstBestUnique(xs, FirstMax(xs), 0);
  }
}
