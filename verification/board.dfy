/** The board of the Royal Game of Ur (Assets/Scripts/Tile.cs) and the stones
    on it (the data fields of Assets/Scripts/PlayerStone.cs).  Unity object
    references become indices: a tile is named by its position in `tiles`, a
    stone by its position in `stones`, and a null reference is `None`. */
module Board {
  import opened Outcomes

  type TileId = nat
  type StoneId = nat
  type StorageId = nat

  /** A tile: its successors along the path (one, or one per player at a
      fork, any of which may be a null reference), the stone standing on it,
      and its three flags.  A null successor array is the empty sequence. */
  datatype Tile = Tile(
    nextTiles: seq<Option<TileId>>,
    stone: Option<StoneId>,
    isScoringSpace: bool,
    isRollAgain: bool,
    isSideline: bool)

  /** A stone: its owner, the tile it enters the board on, the tile it stands
      on (`None` while off the board) and the storage it returns to. */
  datatype Stone = Stone(
    playerId: int,
    startingTile: Option<TileId>,
    currentTile: Option<TileId>,
    storage: Option<StorageId>)

  datatype Game = Game(tiles: seq<Tile>, stones: seq<Stone>)

  /** A possibly-null tile reference names a tile of this board. */
  predicate TileFits(g: Game, t: Option<TileId>) {
    t.None? || t.value < |g.tiles|
  }

  predicate StoneFits(g: Game, s: Stone) {
    TileFits(g, s.startingTile) && TileFits(g, s.currentTile)
  }

  /** Every non-null reference stored on the board names an existing tile or
      stone of this game: an index stands for an object of the scene, so
      indices outside the game have no counterpart in the original. */
  predicate ValidBoard(g: Game) {
    (forall t :: 0 <= t < |g.tiles| ==>
       (forall i :: 0 <= i < |g.tiles[t].nextTiles| ==> TileFits(g, g.tiles[t].nextTiles[i])) &&
       (g.tiles[t].stone.None? || g.tiles[t].stone.value < |g.stones|)) &&
    (forall k :: 0 <= k < |g.stones| ==> StoneFits(g, g.stones[k]))
  }

  /** Tile occupancy and stone positions agree: a tile holds a stone exactly
      when that stone stands on the tile. */
  predicate Consistent(g: Game)
    requires ValidBoard(g)
  {
    (forall t :: 0 <= t < |g.tiles| && g.tiles[t].stone.Some? ==>
       g.stones[g.tiles[t].stone.value].currentTile == Some(t)) &&
    (forall k :: 0 <= k < |g.stones| && g.stones[k].currentTile.Some? ==>
       g.tiles[g.stones[k].currentTile.value].stone == Some(k))
  }

  /** Sets the occupant of one tile and changes nothing else. */
  function SetOccupant(g: Game, t: TileId, s: Option<StoneId>): (r: Game)
    requires t < |g.tiles|
    ensures |r.tiles| == |g.tiles| && r.stones == g.stones
    ensures r.tiles[t] == g.tiles[t].(stone := s)
    ensures forall u :: 0 <= u < |g.tiles| && u != t ==> r.tiles[u] == g.tiles[u]
    ensures ValidBoard(g) && (s.None? || s.value < |g.stones|) ==> ValidBoard(r)
  {
    g.(tiles := g.tiles[t := g.tiles[t].(stone := s)])
  }

  /** Sets the position of one stone and changes nothing else. */
  function SetPosition(g: Game, k: StoneId, t: Option<TileId>): (r: Game)
    requires k < |g.stones|
    ensures |r.stones| == |g.stones| && r.tiles == g.tiles
    ensures r.stones[k] == g.stones[k].(currentTile := t)
    ensures forall j :: 0 <= j < |g.stones| && j != k ==> r.stones[j] == g.stones[j]
    ensures ValidBoard(g) && TileFits(g, t) ==> ValidBoard(r)
  {
    g.(stones := g.stones[k := g.stones[k].(currentTile := t)])
  }
}
