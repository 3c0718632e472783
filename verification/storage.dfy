/** A player's stone storage (Assets/Scripts/StoneStorage.cs): the
    placeholders off the board where that player's stones wait, and the
    stones created there when the game starts.  A placeholder's children
    become the list of stones parented to it; a placeholder Transform is
    named by its position among this storage's placeholders. */
module Storage {
  import opened Outcomes
  import opened Board

  datatype StoneStorage = StoneStorage(startingTile: Option<TileId>, placeholders: seq<seq<StoneId>>)

  /** The list without stone `k`. */
  function Remove(xs: seq<StoneId>, k: StoneId): (r: seq<StoneId>)
    ensures forall x :: x in r <==> x in xs && x != k
    ensures k !in xs ==> r == xs
    decreases |xs|
  {
    if |xs| == 0 then []
    else
      var before := Remove(xs[..|xs| - 1], k);
      var x := xs[|xs| - 1];
      assert xs == xs[..|xs| - 1] + [x];
      if x == k then before else before + [x]
  }

  /** Unparents stone `k` from every placeholder: what re-parenting it, or
      parenting it to nothing, does to its old placeholder. */
  function Detach(slots: seq<seq<StoneId>>, k: StoneId): (r: seq<seq<StoneId>>)
    ensures |r| == |slots|
    ensures forall p :: 0 <= p < |r| ==> r[p] == Remove(slots[p], k)
  {
    seq(|slots|, p requires 0 <= p < |slots| => Remove(slots[p], k))
  }

  /** The first placeholder from `i` on with no stone on it. */
  function FirstEmpty(slots: seq<seq<StoneId>>, i: nat): (r: Option<nat>)
    requires i <= |slots|
    ensures r.Some? ==> i <= r.value < |slots| && slots[r.value] == [] &&
                        forall p :: i <= p < r.value ==> slots[p] != []
    ensures r.None? ==> forall p :: i <= p < |slots| ==> slots[p] != []
    decreases |slots| - i
  {
    if i == |slots| then None
    else if slots[i] == [] then Some(i)
    else FirstEmpty(slots, i + 1)
  }

  /** AddStoneToStorage: stone `k` goes onto the given placeholder, or when
      none is given onto the first empty one; with no empty placeholder the
      error is only logged and nothing changes. */
  function AddStoneToStorage(st: StoneStorage, k: StoneId, placeholder: Option<nat>): (r: StoneStorage)
    requires placeholder.Some? ==> placeholder.value < |st.placeholders|
    ensures r.startingTile == st.startingTile && |r.placeholders| == |st.placeholders|
    ensures placeholder.None? && FirstEmpty(st.placeholders, 0).None? ==> r == st
    ensures placeholder.Some? || FirstEmpty(st.placeholders, 0).Some? ==>
      var p := if placeholder.Some? then placeholder.value else FirstEmpty(st.placeholders, 0).value;
      (forall q :: 0 <= q < |r.placeholders| ==> (k in r.placeholders[q] <==> q == p)) &&
      (forall q, x :: 0 <= q < |r.placeholders| && x != k ==> (x in r.placeholders[q] <==> x in st.placeholders[q]))
  {
    var target := if placeholder.Some? then placeholder else FirstEmpty(st.placeholders, 0);
    if target.None? then st
    else
      var slots := Detach(st.placeholders, k);
      st.(placeholders := slots[target.value := slots[target.value] + [k]])
  }

  /** A move takes the stone off its placeholder (PlayerStone.OnMouseUp
      unparents it). */
  function LeaveStorage(st: StoneStorage, k: StoneId): (r: StoneStorage)
    ensures r.startingTile == st.startingTile && |r.placeholders| == |st.placeholders|
    ensures forall q :: 0 <= q < |r.placeholders| ==> k !in r.placeholders[q]
    ensures forall q, x :: 0 <= q < |r.placeholders| && x != k ==> (x in r.placeholders[q] <==> x in st.placeholders[q])
  {
    st.(placeholders := Detach(st.placeholders, k))
  }

  /** A stone that leaves its own placeholder and is later knocked back
      returns to that same placeholder, when every placeholder before it is
      still taken: the storage is as it was. */
  lemma LeaveThenReturn(st: StoneStorage, k: StoneId, p: nat)
    requires p < |st.placeholders| && st.placeholders[p] == [k]
    requires forall q :: 0 <= q < |st.placeholders| && q != p ==> k !in st.placeholders[q]
    requires forall q :: 0 <= q < p ==> st.placeholders[q] != []
    ensures AddStoneToStorage(LeaveStorage(st, k), k, None) == st
  {
    var left := LeaveStorage(st, k);
    assert Remove([k], k) == [];
    assert left.placeholders[p] == [];
    forall q | 0 <= q < p
      ensures left.placeholders[q] != []
    {
      assert left.placeholders[q] == st.placeholders[q];
    }
    var f := FirstEmpty(left.placeholders, 0);
    assert f == Some(p);
    var d := Detach(left.placeholders, k);
    assert d == left.placeholders;
    assert d[p] + [k] == [k];
    forall q | 0 <= q < |st.placeholders| && q != p
      ensures left.placeholders[q] == st.placeholders[q]
    {
      assert left.placeholders[q] == Remove(st.placeholders[q], k);
    }
    assert left.placeholders[p := [k]] == st.placeholders;
  }

  /** The stone Start creates for this storage: it enters on the storage's
      starting tile, is off the board, and belongs to the storage. */
  function NewStone(st: StoneStorage, pid: int, id: StorageId): (s: Stone)
    ensures s.playerId == pid && s.startingTile == st.startingTile
    ensures s.currentTile.None? && s.storage == Some(id)
  {
    Stone(pid, st.startingTile, None, Some(id))
  }

  /** Start: one new stone per placeholder, stone i (numbered `first` + i)
      parented to placeholder i. */
  method Start(st: StoneStorage, pid: int, id: StorageId, first: StoneId) returns (stones: seq<Stone>, r: StoneStorage)
    ensures |stones| == |st.placeholders| && forall i :: 0 <= i < |stones| ==> stones[i] == NewStone(st, pid, id)
    ensures r.startingTile == st.startingTile && |r.placeholders| == |st.placeholders|
    ensures forall q, x :: 0 <= q < |r.placeholders| && first <= x < first + |stones| ==>
              (x in r.placeholders[q] <==> q == x - first)
    ensures forall q, x :: 0 <= q < |r.placeholders| && !(first <= x < first + |stones|) ==>
              (x in r.placeholders[q] <==> x in st.placeholders[q])
  {
    stones := [];
    r := st;
    var i := 0;
    while i < |st.placeholders|
      invariant 0 <= i <= |st.placeholders| && |stones| == i
      invariant forall j :: 0 <= j < i ==> stones[j] == NewStone(st, pid, id)
      invariant r.startingTile == st.startingTile && |r.placeholders| == |st.placeholders|
      invariant forall q, x :: 0 <= q < |r.placeholders| && first <= x < first + i ==>
                  (x in r.placeholders[q] <==> q == x - first)
      invariant forall q, x :: 0 <= q < |r.placeholders| && !(first <= x < first + i) ==>
                  (x in r.placeholders[q] <==> x in st.placeholders[q])
    {
      stones := stones + [NewStone(st, pid, id)];
      r := AddStoneToStorage(r, first + i, Some(i));
      i := i + 1;
    }
  }

  /** Started from empty placeholders, each placeholder holds exactly its
      own new stone: the storage `r` Start leaves behind, as its
      postconditions describe it. */
  lemma StartFromEmpty(st: StoneStorage, first: StoneId, r: StoneStorage, i: nat)
    requires forall q :: 0 <= q < |st.placeholders| ==> st.placeholders[q] == []
    requires |r.placeholders| == |st.placeholders| && i < |r.placeholders|
    requires forall q, x :: 0 <= q < |r.placeholders| && first <= x < first + |st.placeholders| ==>
               (x in r.placeholders[q] <==> q == x - first)
    requires forall q, x :: 0 <= q < |r.placeholders| && !(first <= x < first + |st.placeholders|) ==>
               (x in r.placeholders[q] <==> x in st.placeholders[q])
    ensures forall x :: x in r.placeholders[i] <==> x == first + i
  {
    forall x | x in r.placeholders[i]
      ensures x == first + i
    {
    }
    var y := first + i;
    assert y in r.placeholders[i] <==> i == y - first;
  }
}
