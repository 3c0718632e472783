/** How a stone looks ahead along the board (Assets/Scripts/PlayerStone.cs):
    the tiles its next moves pass over, the tile a move ends on, and whether
    a stone may land there. */
module Paths {
  import opened Outcomes
  import opened Board

  /** One step of the walk from `t` for a stone of player `pid` entering at
      `start`.  `Ok(None)` means the walk stops: `t` has no successor.  Off
      the board (and after a null successor) the step leads to the starting
      tile; at a fork the player id picks the branch, and an id outside the
      fork is an index error.  The successor taken may itself be null. */
  function Advance(g: Game, pid: int, start: Option<TileId>, t: Option<TileId>): (r: Result<Option<Option<TileId>>>)
    requires ValidBoard(g) && TileFits(g, start) && TileFits(g, t)
    ensures r.Ok? && r.value.Some? ==> TileFits(g, r.value.value)
    ensures r.Err? <==> t.Some? && |g.tiles[t.value].nextTiles| > 1 && !(0 <= pid < |g.tiles[t.value].nextTiles|)
    ensures r == Ok(None) <==> t.Some? && |g.tiles[t.value].nextTiles| == 0
    ensures t.None? ==> r == Ok(Some(start))
  {
    if t.None? then Ok(Some(start))
    else
      var next := g.tiles[t.value].nextTiles;
      if |next| == 0 then Ok(None)
      else if |next| > 1 then
        if 0 <= pid < |next| then Ok(Some(next[pid])) else Err(IndexOutOfRange)
      else Ok(Some(next[0]))
  }

  /** The reference definition of the tiles `n` moves pass over, starting
      from `t`: each entry is one step on from the previous one, and once the
      walk stops the remaining entries are null. */
  function Walk(g: Game, pid: int, start: Option<TileId>, t: Option<TileId>, n: nat): (r: Result<seq<Option<TileId>>>)
    requires ValidBoard(g) && TileFits(g, start) && TileFits(g, t)
    ensures r.Ok? ==> |r.value| == n && forall i :: 0 <= i < n ==> TileFits(g, r.value[i])
    ensures r.Err? ==> r.error == IndexOutOfRange
    decreases n
  {
    if n == 0 then Ok([])
    else
      var step :- Advance(g, pid, start, t);
      if step.None? then Ok(Nulls(n))
      else
        var rest :- Walk(g, pid, start, step.value, n - 1);
        Ok([step.value] + rest)
  }

  /** GetTilesAhead as a value: null for a zero move, an allocation error for
      a negative one, otherwise the walk from the stone's current tile. */
  function TilesAhead(g: Game, s: Stone, n: int): (r: Result<Option<seq<Option<TileId>>>>)
    requires ValidBoard(g) && StoneFits(g, s)
    ensures n == 0 <==> r == Ok(None)
    ensures n < 0 <==> r == Err(Overflow)
    ensures r.Ok? && r.value.Some? ==> n > 0 && |r.value.value| == n
  {
    if n == 0 then Ok(None)
    else if n < 0 then Err(Overflow)
    else
      var w :- Walk(g, s.playerId, s.startingTile, s.currentTile, n);
      Ok(Some(w))
  }

  /** n null tile references. */
  function Nulls(n: nat): (r: seq<Option<TileId>>)
    ensures |r| == n && forall i :: 0 <= i < n ==> r[i] == None
  {
    seq(n, _ => None)
  }

  /** Puts a fixed prefix in front of a successful walk. */
  function Prepend(p: seq<Option<TileId>>, r: Result<seq<Option<TileId>>>): Result<seq<Option<TileId>>> {
    if r.Ok? then Ok(p + r.value) else r
  }

  /** The loop of GetTilesAhead: it fills a fresh array of nulls one entry per
      step and leaves the rest null when the path runs out. */
  method GetTilesAhead(g: Game, s: Stone, n: int) returns (r: Result<Option<seq<Option<TileId>>>>)
    requires ValidBoard(g) && StoneFits(g, s)
    ensures r == TilesAhead(g, s, n)
  {
    if n == 0 {
      return Ok(None);
    }
    if n < 0 {
      return Err(Overflow);
    }
    var list := Nulls(n);
    var final := s.currentTile;
    var i := 0;
    assert list[..0] == [];
    PrependNothing(Walk(g, s.playerId, s.startingTile, s.currentTile, n));
    while i < n
      invariant 0 <= i <= n && |list| == n && TileFits(g, final)
      invariant forall k :: i <= k < n ==> list[k] == None
      invariant Walk(g, s.playerId, s.startingTile, s.currentTile, n)
                  == Prepend(list[..i], Walk(g, s.playerId, s.startingTile, final, n - i))
    {
      ghost var before := final;
      if final.None? {
        final := s.startingTile;
      } else {
        var next := g.tiles[final.value].nextTiles;
        if |next| == 0 {
          WalkDeadEnd(g, s, list, i, n, before);
          return Ok(Some(list));
        } else if |next| > 1 {
          if !(0 <= s.playerId < |next|) {
            WalkForkMissed(g, s, list, i, n, before);
            return Err(IndexOutOfRange);
          }
          final := next[s.playerId];
        } else {
          final := next[0];
        }
      }
      assert Advance(g, s.playerId, s.startingTile, before) == Ok(Some(final));
      WalkStepKept(g, s, list, i, n, before, final);
      list := list[i := final];
      i := i + 1;
    }
    WalkFilled(g, s, list, n, final);
    return Ok(Some(list));
  }

  /** The walk before GetTilesAhead's loop is the whole walk. */
  lemma PrependNothing(w: Result<seq<Option<TileId>>>)
    ensures w == Prepend([], w)
  {
    if w.Ok? {
      assert [] + w.value == w.value;
    }
  }

  /** GetTilesAhead's loop stops at a tile without successors: the entries
      still null are the walk's. */
  lemma WalkDeadEnd(g: Game, s: Stone, list: seq<Option<TileId>>, i: nat, n: nat, before: Option<TileId>)
    requires ValidBoard(g) && StoneFits(g, s) && TileFits(g, before)
    requires i < n && |list| == n && forall k :: i <= k < n ==> list[k] == None
    requires Walk(g, s.playerId, s.startingTile, s.currentTile, n)
               == Prepend(list[..i], Walk(g, s.playerId, s.startingTile, before, n - i))
    requires before.Some? && |g.tiles[before.value].nextTiles| == 0
    ensures TilesAhead(g, s, n) == Ok(Some(list))
  {
    assert Walk(g, s.playerId, s.startingTile, before, n - i) == Ok(Nulls(n - i));
    assert list == list[..i] + Nulls(n - i);
  }

  /** GetTilesAhead's loop meets a fork the player id misses: the walk fails. */
  lemma WalkForkMissed(g: Game, s: Stone, list: seq<Option<TileId>>, i: nat, n: nat, before: Option<TileId>)
    requires ValidBoard(g) && StoneFits(g, s) && TileFits(g, before)
    requires i < n && |list| == n
    requires Walk(g, s.playerId, s.startingTile, s.currentTile, n)
               == Prepend(list[..i], Walk(g, s.playerId, s.startingTile, before, n - i))
    requires before.Some? && |g.tiles[before.value].nextTiles| > 1
    requires !(0 <= s.playerId < |g.tiles[before.value].nextTiles|)
    ensures TilesAhead(g, s, n) == Err(IndexOutOfRange)
  {
    assert Advance(g, s.playerId, s.startingTile, before).Err?;
    assert Walk(g, s.playerId, s.startingTile, before, n - i).Err?;
  }

  /** GetTilesAhead's loop ran to the end: the filled array is the walk. */
  lemma WalkFilled(g: Game, s: Stone, list: seq<Option<TileId>>, n: nat, final: Option<TileId>)
    requires ValidBoard(g) && StoneFits(g, s) && TileFits(g, final)
    requires n > 0 && |list| == n
    requires Walk(g, s.playerId, s.startingTile, s.currentTile, n)
               == Prepend(list[..n], Walk(g, s.playerId, s.startingTile, final, n - n))
    ensures TilesAhead(g, s, n) == Ok(Some(list))
  {
    assert list[..n] == list;
    assert Walk(g, s.playerId, s.startingTile, final, 0) == Ok([]);
    assert list + [] == list;
  }

  /** One pass of GetTilesAhead's loop keeps the walk split into the filled
      prefix and the walk still to come. */
  lemma WalkStepKept(g: Game, s: Stone, list: seq<Option<TileId>>, i: nat, n: nat,
                     before: Option<TileId>, final: Option<TileId>)
    requires ValidBoard(g) && StoneFits(g, s) && TileFits(g, before) && TileFits(g, final)
    requires i < n && |list| == n
    requires Walk(g, s.playerId, s.startingTile, s.currentTile, n)
               == Prepend(list[..i], Walk(g, s.playerId, s.startingTile, before, n - i))
    requires Advance(g, s.playerId, s.startingTile, before) == Ok(Some(final))
    ensures Walk(g, s.playerId, s.startingTile, s.currentTile, n)
              == Prepend(list[i := final][..i + 1], Walk(g, s.playerId, s.startingTile, final, n - i - 1))
  {
    var rest := Walk(g, s.playerId, s.startingTile, final, n - i - 1);
    assert Walk(g, s.playerId, s.startingTile, before, n - i) == Prepend([final], rest);
    PrependStep(list[..i], final, rest);
    assert list[i := final][..i + 1] == list[..i] + [final];
  }

  lemma PrependStep(p: seq<Option<TileId>>, x: Option<TileId>, w: Result<seq<Option<TileId>>>)
    ensures Prepend(p, Prepend([x], w)) == Prepend(p + [x], w)
  {
    if w.Ok? {
      assert p + ([x] + w.value) == (p + [x]) + w.value;
    }
  }

  /** GetTileAhead: the current tile for a zero move, otherwise the last tile
      the move passes over (null when the move overshoots the path). */
  function TileAhead(g: Game, s: Stone, n: int): (r: Result<Option<TileId>>)
    requires ValidBoard(g) && StoneFits(g, s)
    ensures r.Ok? ==> TileFits(g, r.value)
    ensures n == 0 ==> r == Ok(s.currentTile)
    ensures n < 0 ==> r == Err(Overflow)
    ensures n > 0 ==> match Walk(g, s.playerId, s.startingTile, s.currentTile, n)
                        case Ok(w) => r == Ok(w[n - 1])
                        case Err(e) => r == Err(e)
  {
    var tiles :- TilesAhead(g, s, n);
    if tiles.None? then Ok(s.currentTile)
    else Ok(tiles.value[|tiles.value| - 1])
  }

  /** CanLegallyMoveTo for a stone of player `pid`. */
  function CanLegallyMoveTo(g: Game, pid: int, dest: Option<TileId>): (legal: bool)
    requires ValidBoard(g) && TileFits(g, dest)
    ensures legal <==>
      dest.Some? &&
      (g.tiles[dest.value].stone.None? ||
       (g.stones[g.tiles[dest.value].stone.value].playerId != pid && !g.tiles[dest.value].isRollAgain))
  {
    if dest.None? then false
    else
      var tile := g.tiles[dest.value];
      if tile.stone.None? then true
      else if g.stones[tile.stone.value].playerId == pid then false
      else if tile.isRollAgain then false
      else true
  }

  /** CanLegallyMoveAhead: the legality of the tile `n` moves ahead. */
  function CanLegallyMoveAhead(g: Game, s: Stone, n: int): (r: Result<bool>)
    requires ValidBoard(g) && StoneFits(g, s)
    ensures r.Err? <==> TileAhead(g, s, n).Err?
    ensures r.Ok? ==> r.value == CanLegallyMoveTo(g, s.playerId, TileAhead(g, s, n).value)
  {
    var t :- TileAhead(g, s, n);
    Ok(CanLegallyMoveTo(g, s.playerId, t))
  }

  // ----- properties of the walk -----

  /** From off the board the first tile passed over is the starting tile. */
  lemma FirstStepFromOffBoard(g: Game, s: Stone, n: int)
    requires ValidBoard(g) && StoneFits(g, s) && s.currentTile.None? && n > 0
    requires TilesAhead(g, s, n).Ok?
    ensures TilesAhead(g, s, n).value.Some? && TilesAhead(g, s, n).value.value[0] == s.startingTile
  {
  }

  lemma {:induction false} WalkFromOffBoardWithoutStart(g: Game, pid: int, n: nat)
    requires ValidBoard(g)
    ensures Walk(g, pid, None, None, n) == Ok(Nulls(n))
    decreases n
  {
    if n > 0 {
      WalkFromOffBoardWithoutStart(g, pid, n - 1);
      assert [None] + Nulls(n - 1) == Nulls(n);
    }
  }

  /** A walk fails only at a fork whose branches the player id misses. */
  predicate ForksFit(g: Game, pid: int) {
    forall t :: 0 <= t < |g.tiles| && |g.tiles[t].nextTiles| > 1 ==> 0 <= pid < |g.tiles[t].nextTiles|
  }

  /** When every fork has a branch for the player, no walk fails. */
  lemma {:induction false} WalkSucceeds(g: Game, pid: int, start: Option<TileId>, t: Option<TileId>, n: nat)
    requires ValidBoard(g) && TileFits(g, start) && TileFits(g, t) && ForksFit(g, pid)
    ensures Walk(g, pid, start, t, n).Ok?
    decreases n
  {
    if n > 0 {
      var step := Advance(g, pid, start, t);
      if step.value.Some? {
        WalkSucceeds(g, pid, start, step.value.value, n - 1);
      }
    }
  }

  /** Each tile passed over after the first is one step on from the tile
      before it: its sole successor, or the player's branch at a fork. */
  lemma {:induction false} WalkFollowsSuccessors(g: Game, pid: int, start: Option<TileId>, t: Option<TileId>, n: nat)
    requires ValidBoard(g) && TileFits(g, start) && TileFits(g, t)
    requires Walk(g, pid, start, t, n).Ok?
    ensures n > 0 && Walk(g, pid, start, t, n).value[0].Some? ==>
              Advance(g, pid, start, t) == Ok(Some(Walk(g, pid, start, t, n).value[0]))
    ensures forall i :: 0 <= i < n - 1 && Walk(g, pid, start, t, n).value[i + 1].Some? ==>
              Advance(g, pid, start, Walk(g, pid, start, t, n).value[i]) == Ok(Some(Walk(g, pid, start, t, n).value[i + 1]))
    decreases n
  {
    if n > 0 {
      var step := Advance(g, pid, start, t);
      var w := Walk(g, pid, start, t, n).value;
      if step.value.Some? {
        WalkFollowsSuccessors(g, pid, start, step.value.value, n - 1);
        var rest := Walk(g, pid, start, step.value.value, n - 1).value;
        assert w == [step.value.value] + rest;
        forall i | 0 <= i < n - 1 && w[i + 1].Some?
          ensures Advance(g, pid, start, w[i]) == Ok(Some(w[i + 1]))
        {
          if i > 0 {
            assert w[i] == rest[i - 1] && w[i + 1] == rest[i];
          }
        }
      }
    }
  }

  /** No tile lists a null successor. */
  predicate NoNullSuccessors(g: Game) {
    forall t, i :: 0 <= t < |g.tiles| && 0 <= i < |g.tiles[t].nextTiles| ==> g.tiles[t].nextTiles[i].Some?
  }

  /** On a board without null successors, null entries form a suffix: once
      the walk has run off the path (or the stone has no starting tile),
      every later entry is null too.  A null successor breaks this: see
      NullSuccessorRestarts. */
  lemma {:induction false} NullsFormSuffix(g: Game, pid: int, start: Option<TileId>, t: Option<TileId>, n: nat)
    requires ValidBoard(g) && TileFits(g, start) && TileFits(g, t) && NoNullSuccessors(g)
    requires Walk(g, pid, start, t, n).Ok?
    ensures forall i, j :: 0 <= i <= j < n && Walk(g, pid, start, t, n).value[i].None? ==>
              Walk(g, pid, start, t, n).value[j].None?
    decreases n
  {
    if n > 0 {
      var step := Advance(g, pid, start, t);
      var w := Walk(g, pid, start, t, n).value;
      if step.value.Some? {
        var u := step.value.value;
        NullsFormSuffix(g, pid, start, u, n - 1);
        var rest := Walk(g, pid, start, u, n - 1).value;
        assert w == [u] + rest;
        if u.None? {
          // the stone stands off the board and has no starting tile
          assert t.None? && start.None?;
          WalkFromOffBoardWithoutStart(g, pid, n - 1);
          assert forall j :: 0 <= j < n ==> w[j].None?;
        } else {
          forall i, j | 0 <= i <= j < n && w[i].None?
            ensures w[j].None?
          {
            assert i > 0 && w[i] == rest[i - 1] && w[j] == rest[j - 1];
          }
        }
      }
    }
  }

  /** A tile with no successors ends the walk: every entry after it is null. */
  lemma DeadEndStopsWalk(g: Game, pid: int, start: Option<TileId>, t: Option<TileId>, n: nat, i: nat)
    requires ValidBoard(g) && TileFits(g, start) && TileFits(g, t)
    requires Walk(g, pid, start, t, n).Ok? && i + 1 < n
    requires Walk(g, pid, start, t, n).value[i].Some?
    requires |g.tiles[Walk(g, pid, start, t, n).value[i].value].nextTiles| == 0
    ensures forall j :: i < j < n ==> Walk(g, pid, start, t, n).value[j].None?
  {
    var w := Walk(g, pid, start, t, n).value;
    WalkFrom(g, pid, start, t, n, i);
    assert Walk(g, pid, start, w[i], n - i - 1) == Ok(Nulls(n - i - 1));
    forall j | i < j < n
      ensures w[j].None?
    {
      assert w[j] == w[i + 1..][j - i - 1];
    }
  }

  /** The entries after a non-null entry are the walk from that tile. */
  lemma {:induction false} WalkFrom(g: Game, pid: int, start: Option<TileId>, t: Option<TileId>, n: nat, i: nat)
    requires ValidBoard(g) && TileFits(g, start) && TileFits(g, t)
    requires Walk(g, pid, start, t, n).Ok? && i < n
    requires Walk(g, pid, start, t, n).value[i].Some?
    ensures Walk(g, pid, start, Walk(g, pid, start, t, n).value[i], n - i - 1)
              == Ok(Walk(g, pid, start, t, n).value[i + 1..])
    decreases i
  {
    var w := Walk(g, pid, start, t, n).value;
    var step := Advance(g, pid, start, t);
    if step.value.None? {
      assert false;
    }
    var u := step.value.value;
    var rest := Walk(g, pid, start, u, n - 1).value;
    assert Walk(g, pid, start, t, n) == Ok([u] + rest);
    assert w == [u] + rest;
    if i == 0 {
      assert w[1..] == rest;
    } else {
      ConsEntries(u, rest, i);
      WalkFrom(g, pid, start, u, n - 1, i - 1);
    }
  }

  /** Entry i and the entries after it of `[u] + rest`, for i > 0, are those
      of rest one place earlier. */
  lemma ConsEntries(u: Option<TileId>, rest: seq<Option<TileId>>, i: nat)
    requires 0 < i <= |rest|
    ensures ([u] + rest)[i] == rest[i - 1] && ([u] + rest)[i + 1..] == rest[i..]
  {
  }

  /** A null successor does not end the walk: the entry after it is null,
      and the walk then starts over at the starting tile, as from off the
      board. */
  lemma NullSuccessorRestarts(g: Game, pid: int, start: Option<TileId>, t: Option<TileId>, n: nat, i: nat)
    requires ValidBoard(g) && TileFits(g, start) && TileFits(g, t)
    requires Walk(g, pid, start, t, n).Ok? && i + 2 < n
    requires Walk(g, pid, start, t, n).value[i].Some?
    requires Advance(g, pid, start, Walk(g, pid, start, t, n).value[i]) == Ok(Some(None))
    ensures Walk(g, pid, start, t, n).value[i + 1] == None
    ensures Walk(g, pid, start, t, n).value[i + 2] == start
  {
    var w := Walk(g, pid, start, t, n).value;
    WalkFrom(g, pid, start, t, n, i);
    var m := n - i - 1;
    var after := Walk(g, pid, start, None, m - 1).value;
    assert Walk(g, pid, start, w[i], m).value == [None] + after;
    assert after[0] == start;
    assert w[i + 1] == w[i + 1..][0] && w[i + 2] == w[i + 1..][1];
  }

  /** A walk one step longer extends the shorter one by the step from its
      last tile, as long as that tile has not run off the path. */
  lemma {:induction false} WalkExtends(g: Game, pid: int, start: Option<TileId>, t: Option<TileId>, n: nat, u: Option<TileId>)
    requires ValidBoard(g) && TileFits(g, start) && TileFits(g, t) && n > 0
    requires Walk(g, pid, start, t, n).Ok?
    requires Advance(g, pid, start, Walk(g, pid, start, t, n).value[n - 1]) == Ok(Some(u))
    requires Walk(g, pid, start, t, n).value[n - 1].Some?
    ensures Walk(g, pid, start, t, n + 1) == Ok(Walk(g, pid, start, t, n).value + [u])
    decreases n
  {
    var step := Advance(g, pid, start, t);
    var w := Walk(g, pid, start, t, n).value;
    if step.value.None? {
      assert false;
    } else {
      var v := step.value.value;
      var rest := Walk(g, pid, start, v, n - 1).value;
      assert w == [v] + rest;
      if n == 1 {
        assert w[0] == v;
        assert Advance(g, pid, start, v) == Ok(Some(u));
        assert Walk(g, pid, start, u, 0) == Ok([]);
        assert [u] + [] == [u];
        assert Walk(g, pid, start, v, 1) == Ok([u]);
        assert w == [v];
        assert Walk(g, pid, start, t, 2) == Ok([v] + [u]);
      } else {
        assert rest[n - 2] == w[n - 1];
        WalkExtends(g, pid, start, v, n - 1, u);
        assert [v] + (rest + [u]) == w + [u];
      }
    }
  }

  /** The tile n + 1 moves ahead is one step on from the tile n moves ahead. */
  lemma TileAheadSteps(g: Game, s: Stone, n: nat, u: Option<TileId>)
    requires ValidBoard(g) && StoneFits(g, s) && n > 0
    requires TileAhead(g, s, n).Ok? && TileAhead(g, s, n).value.Some?
    requires Advance(g, s.playerId, s.startingTile, TileAhead(g, s, n).value) == Ok(Some(u))
    ensures TileAhead(g, s, n + 1) == Ok(u)
  {
    WalkExtends(g, s.playerId, s.startingTile, s.currentTile, n, u);
  }

  /** A shorter walk is the start of a longer one from the same tile. */
  lemma {:induction false} WalkPrefix(g: Game, pid: int, start: Option<TileId>, t: Option<TileId>, n: nat, k: nat)
    requires ValidBoard(g) && TileFits(g, start) && TileFits(g, t)
    requires Walk(g, pid, start, t, n).Ok? && k <= n
    ensures Walk(g, pid, start, t, k) == Ok(Walk(g, pid, start, t, n).value[..k])
    decreases n
  {
    if k > 0 {
      var step := Advance(g, pid, start, t);
      var w := Walk(g, pid, start, t, n).value;
      if step.value.None? {
        assert Nulls(n)[..k] == Nulls(k);
      } else {
        var u := step.value.value;
        var rest := Walk(g, pid, start, u, n - 1).value;
        WalkPrefix(g, pid, start, u, n - 1, k - 1);
        assert w == [u] + rest;
        assert w[..k] == [u] + rest[..k - 1];
      }
    }
  }

  /** The tile k moves ahead is entry k - 1 of the tiles any longer move
      passes over. */
  lemma TileAheadInWalk(g: Game, s: Stone, n: nat, k: nat, w: seq<Option<TileId>>)
    requires ValidBoard(g) && StoneFits(g, s) && 1 <= k <= n
    requires TilesAhead(g, s, n) == Ok(Some(w))
    ensures TileAhead(g, s, k) == Ok(w[k - 1])
  {
    WalkPrefix(g, s.playerId, s.startingTile, s.currentTile, n, k);
  }

  /** With a consistent board a stone may never land on the tile it stands on. */
  lemma NoMoveOntoOwnTile(g: Game, k: StoneId)
    requires ValidBoard(g) && Consistent(g) && k < |g.stones|
    ensures !CanLegallyMoveTo(g, g.stones[k].playerId, g.stones[k].currentTile)
  {
  }
}
