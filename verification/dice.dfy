/** The dice of Assets/Scripts/DiceRoller.cs.  Each die's value comes from
    `Random.Range(0, 2)` in the original; here the drawn values are an input.
    The choice of die sprites is not part of the model. */
module Dice {

  datatype DiceRoller = DiceRoller(diceValues: seq<int>, diceTotal: int, isDoneRolling: bool)

  /** The roller as Start leaves it: four dice, none rolled yet. */
  function Initial(): (d: DiceRoller)
    ensures |d.diceValues| == 4 && !d.isDoneRolling
  {
    DiceRoller([0, 0, 0, 0], 0, false)
  }

  /** The sum of the dice values. */
  function Sum(xs: seq<int>): int
    decreases |xs|
  {
    if |xs| == 0 then 0 else Sum(xs[..|xs| - 1]) + xs[|xs| - 1]
  }

  /** What `Random.Range(0, 2)` can return: 0 or 1. */
  predicate IsDieFace(x: int) {
    x == 0 || x == 1
  }

  /** RollTheDice: the drawn values replace the dice, the total restarts at
      0 and adds each value in turn, and the roll counts as done once at
      least one die has been rolled. */
  method RollTheDice(d: DiceRoller, draws: seq<int>) returns (r: DiceRoller)
    requires |draws| == |d.diceValues|
    ensures r.diceValues == draws
    ensures r.diceTotal == Sum(draws)
    ensures r.isDoneRolling <==> d.isDoneRolling || |draws| > 0
  {
    var values := d.diceValues;
    var total := 0;
    var done := d.isDoneRolling;
    var i := 0;
    while i < |values|
      invariant 0 <= i <= |values| && |values| == |draws|
      invariant values[..i] == draws[..i] && values[i..] == d.diceValues[i..]
      invariant total == Sum(draws[..i])
      invariant done <==> d.isDoneRolling || i > 0
    {
      values := values[i := draws[i]];
      assert draws[..i + 1][..i] == draws[..i];
      total := total + values[i];
      done := true;
      i := i + 1;
    }
    assert values == values[..i] && draws == draws[..i];
    return DiceRoller(values, total, done);
  }

  /** NewTurn: the roll is no longer done; the dice keep their values. */
  function NewTurn(d: DiceRoller): (r: DiceRoller)
    ensures !r.isDoneRolling
    ensures r.diceValues == d.diceValues && r.diceTotal == d.diceTotal
  {
    d.(isDoneRolling := false)
  }

  /** Dice showing 0 or 1 total between 0 and the number of dice: with the
      game's four dice, a roll moves a stone 0 to 4 tiles. */
  lemma {:induction false} TotalInRange(xs: seq<int>)
    requires forall i :: 0 <= i < |xs| ==> IsDieFace(xs[i])
    ensures 0 <= Sum(xs) <= |xs|
    decreases |xs|
  {
    if |xs| > 0 {
      TotalInRange(xs[..|xs| - 1]);
    }
  }

  /** A full roll of the game's dice totals 0 to 4. */
  lemma RollMovesAtMostFour(d: DiceRoller, draws: seq<int>)
    requires |d.diceValues| == 4 && |draws| == 4
    requires forall i :: 0 <= i < 4 ==> IsDieFace(draws[i])
    ensures 0 <= Sum(draws) <= 4
  {
    TotalInRange(draws);
  }
}
