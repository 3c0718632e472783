/** The turn state machine of Assets/Scripts/StateManager.cs: whose turn it
    is, the dice total, and the three flags that track a turn's progress. */
module Turns {
  import opened Outcomes
  import opened Board
  import opened Paths

  datatype TurnState = TurnState(
    numberOfPlayers: int,
    currentPlayerId: int,
    diceTotal: int,
    isDoneRolling: bool,
    isDoneClicking: bool,
    isDoneAnimating: bool)

  /** The game's opening state: two players, player 0 to move, nothing done. */
  function InitialState(): (s: TurnState)
    ensures s.numberOfPlayers == 2 && s.currentPlayerId == 0
    ensures !s.isDoneRolling && !s.isDoneClicking && !s.isDoneAnimating
  {
    TurnState(2, 0, 0, false, false, false)
  }

  function Abs(x: int): nat {
    if x < 0 then -x else x
  }

  /** C#'s integer remainder, which truncates toward zero: the result takes
      the sign of the dividend, unlike Dafny's Euclidean `%`. */
  function CsRem(a: int, b: int): (r: int)
    requires b != 0
    ensures Abs(r) == Abs(a) % Abs(b)
    ensures a >= 0 ==> r >= 0
    ensures a < 0 ==> r <= 0
  {
    if a >= 0 then a % Abs(b) else -((-a) % Abs(b))
  }

  /** Clears the three progress flags. */
  function ClearFlags(s: TurnState): (r: TurnState)
    ensures !r.isDoneRolling && !r.isDoneClicking && !r.isDoneAnimating
    ensures r.numberOfPlayers == s.numberOfPlayers && r.currentPlayerId == s.currentPlayerId
    ensures r.diceTotal == s.diceTotal
  {
    s.(isDoneRolling := false, isDoneClicking := false, isDoneAnimating := false)
  }

  /** NewTurn: the flags are cleared and the next player moves.  A zero
      player count makes the remainder divide by zero. */
  function NewTurn(s: TurnState): (r: Result<TurnState>)
    ensures r.Err? <==> s.numberOfPlayers == 0
    ensures r.Err? ==> r.error == DivideByZero
    ensures r.Ok? ==> r.value == ClearFlags(s).(currentPlayerId := CsRem(s.currentPlayerId + 1, s.numberOfPlayers))
  {
    if s.numberOfPlayers == 0 then Err(DivideByZero)
    else Ok(ClearFlags(s).(currentPlayerId := CsRem(s.currentPlayerId + 1, s.numberOfPlayers)))
  }

  /** RollAgain: the same player starts the turn over. */
  function RollAgain(s: TurnState): (r: TurnState)
    ensures !r.isDoneRolling && !r.isDoneClicking && !r.isDoneAnimating
    ensures r.currentPlayerId == s.currentPlayerId && r.numberOfPlayers == s.numberOfPlayers
    ensures r.diceTotal == s.diceTotal
  {
    ClearFlags(s)
  }

  predicate TurnDone(s: TurnState) {
    s.isDoneRolling && s.isDoneClicking && s.isDoneAnimating
  }

  /** The per-frame check: a turn whose three steps are all done ends. */
  function Update(s: TurnState): (r: Result<TurnState>)
    ensures TurnDone(s) ==> r == NewTurn(s)
    ensures !TurnDone(s) ==> r == Ok(s)
  {
    if TurnDone(s) then NewTurn(s) else Ok(s)
  }

  /** Whether any of the player's stones can move `n` ahead, examining the
      stones in scan order; a failing look-ahead aborts the scan. */
  function HasLegalMove(g: Game, stones: seq<StoneId>, pid: int, n: int): (r: Result<bool>)
    requires ValidBoard(g) && forall i :: 0 <= i < |stones| ==> stones[i] < |g.stones|
    ensures r == Ok(true) ==> exists i :: 0 <= i < |stones| && g.stones[stones[i]].playerId == pid &&
                                CanLegallyMoveAhead(g, g.stones[stones[i]], n) == Ok(true)
    ensures r == Ok(false) ==> forall i :: 0 <= i < |stones| && g.stones[stones[i]].playerId == pid ==>
                                 CanLegallyMoveAhead(g, g.stones[stones[i]], n) == Ok(false)
    ensures r.Err? ==> exists i :: 0 <= i < |stones| && g.stones[stones[i]].playerId == pid &&
                         CanLegallyMoveAhead(g, g.stones[stones[i]], n) == Err(r.error)
    ensures (exists i :: 0 <= i < |stones| && g.stones[stones[i]].playerId == pid &&
               CanLegallyMoveAhead(g, g.stones[stones[i]], n).Err?) ==> r.Err?
    decreases |stones|
  {
    if |stones| == 0 then Ok(false)
    else
      var prefix := stones[..|stones| - 1];
      assert forall i :: 0 <= i < |prefix| ==> prefix[i] == stones[i];
      var before :- HasLegalMove(g, prefix, pid, n);
      var last := g.stones[stones[|stones| - 1]];
      if last.playerId != pid then Ok(before)
      else
        var legal :- CanLegallyMoveAhead(g, last, n);
        Ok(before || legal)
  }

  /** The ids 0 .. n − 1 in increasing order. */
  function Range(n: nat): (ks: seq<nat>)
    ensures |ks| == n && forall i :: 0 <= i < n ==> ks[i] == i
    ensures forall k :: k in ks <==> 0 <= k < n
    decreases n
  {
    if n == 0 then [] else Range(n - 1) + [n - 1]
  }

  /** Every stone of the game, in the order a scan visits them. */
  function AllStones(g: Game): (ks: seq<StoneId>)
    ensures |ks| == |g.stones| && forall i :: 0 <= i < |ks| ==> ks[i] == i
    ensures forall k :: k in ks <==> 0 <= k < |g.stones|
  {
    Range(|g.stones|)
  }

  /** CheckLegalMoves, with the one-second pause before the next turn
      dropped: a zero roll, or a roll no stone of the current player can
      use, passes the turn; otherwise the state is unchanged. */
  function CheckLegalMoves(s: TurnState, g: Game): (r: Result<TurnState>)
    requires ValidBoard(g)
    ensures s.diceTotal == 0 ==> r == NewTurn(s)
    ensures s.diceTotal != 0 && HasLegalMove(g, AllStones(g), s.currentPlayerId, s.diceTotal) == Ok(false) ==>
              r == NewTurn(s)
    ensures s.diceTotal != 0 && HasLegalMove(g, AllStones(g), s.currentPlayerId, s.diceTotal) == Ok(true) ==>
              r == Ok(s)
    ensures s.diceTotal != 0 && HasLegalMove(g, AllStones(g), s.currentPlayerId, s.diceTotal).Err? ==>
              r.Err?
  {
    if s.diceTotal == 0 then NewTurn(s)
    else
      var has :- HasLegalMove(g, AllStones(g), s.currentPlayerId, s.diceTotal);
      if !has then NewTurn(s) else Ok(s)
  }

  // ----- properties of the turn order -----

  /** With a positive player count, a valid player id stays valid and the
      turn passes to the next id, wrapping round to 0. */
  lemma NextPlayerInRange(s: TurnState)
    requires s.numberOfPlayers > 0 && 0 <= s.currentPlayerId < s.numberOfPlayers
    ensures NewTurn(s).Ok?
    ensures 0 <= NewTurn(s).value.currentPlayerId < s.numberOfPlayers
    ensures NewTurn(s).value.currentPlayerId ==
              if s.currentPlayerId + 1 == s.numberOfPlayers then 0 else s.currentPlayerId + 1
  {
  }

  /** The state after k turn changes, when each succeeds. */
  function Turns(s: TurnState, k: nat): (r: TurnState)
    requires s.numberOfPlayers != 0
    ensures r.numberOfPlayers == s.numberOfPlayers
    decreases k
  {
    if k == 0 then s else Turns(NewTurn(s).value, k - 1)
  }

  lemma {:induction false} TurnsCompose(s: TurnState, a: nat, b: nat)
    requires s.numberOfPlayers != 0
    ensures Turns(s, a + b) == Turns(Turns(s, a), b)
    decreases a
  {
    if a > 0 {
      TurnsCompose(NewTurn(s).value, a - 1, b);
    }
  }

  /** Below the last id, each turn change moves on to the next id. */
  lemma {:induction false} TurnsClimb(s: TurnState, k: nat)
    requires s.numberOfPlayers > 0 && 0 <= s.currentPlayerId && s.currentPlayerId + k < s.numberOfPlayers
    ensures Turns(s, k).currentPlayerId == s.currentPlayerId + k
    decreases k
  {
    if k > 0 {
      NextPlayerInRange(s);
      TurnsClimb(NewTurn(s).value, k - 1);
    }
  }

  /** From id c, n − c turn changes reach player 0 again. */
  lemma TurnsWrap(s: TurnState, k: nat)
    requires s.numberOfPlayers > 0 && 0 <= s.currentPlayerId && k > 0
    requires s.currentPlayerId + k == s.numberOfPlayers
    ensures Turns(s, k).currentPlayerId == 0
  {
    TurnsCompose(s, k - 1, 1);
    TurnsClimb(s, k - 1);
    NextPlayerInRange(Turns(s, k - 1));
  }

  /** Every player gets a turn and the order comes back round after as many
      turn changes as there are players. */
  lemma TurnOrderCycles(s: TurnState)
    requires s.numberOfPlayers > 0 && 0 <= s.currentPlayerId < s.numberOfPlayers
    ensures Turns(s, s.numberOfPlayers as nat).currentPlayerId == s.currentPlayerId
  {
    var n := s.numberOfPlayers as nat;
    var c := s.currentPlayerId as nat;
    if c == 0 {
      TurnsWrap(s, n);
    } else {
      TurnsCompose(s, n - c, c);
      TurnsWrap(s, n - c);
      TurnsClimb(Turns(s, n - c), c);
    }
  }

  /** With two players the turn alternates between players 0 and 1. */
  lemma TwoPlayersAlternate(s: TurnState)
    requires s.numberOfPlayers == 2 && 0 <= s.currentPlayerId < 2
    ensures NewTurn(s).Ok? && NewTurn(s).value.currentPlayerId == 1 - s.currentPlayerId
    ensures NewTurn(NewTurn(s).value).Ok? && NewTurn(NewTurn(s).value).value.currentPlayerId == s.currentPlayerId
  {
  }

  /** A negative player id stays negative or zero: C#'s remainder does not
      wrap it into range, so the Euclidean reading would differ. */
  lemma NegativeIdIsNotWrapped()
    ensures NewTurn(TurnState(2, -3, 0, false, false, false)) == Ok(TurnState(2, 0, 0, false, false, false))
    ensures NewTurn(TurnState(2, -4, 0, false, false, false)) == Ok(TurnState(2, -1, 0, false, false, false))
  {
  }

  /** Rolling again keeps the player; only the flags change. */
  lemma RollAgainKeepsPlayer(s: TurnState)
    ensures RollAgain(s).currentPlayerId == s.currentPlayerId && !TurnDone(RollAgain(s))
    ensures Update(RollAgain(s)) == Ok(RollAgain(s))
  {
  }

  /** Update is idempotent: a state it has settled does not change again. */
  lemma UpdateIdempotent(s: TurnState)
    requires Update(s).Ok?
    ensures Update(Update(s).value) == Update(s)
  {
  }
}
