/** A fair n-sided die (`class Die`), as a state value: the side count fixed
    at construction and the value of the last roll, absent until the first. */
module Dice {
  import opened Outcomes

  const DefaultSides: int := 6
  const TypeMessage: string := "The number of sides must be of type 'int'!"
  const NegativeMessage: string := "The number of sides cannot be negative!"

  /** The argument `n` of the constructor. Python accepts any object there and
      checks `type(n) is int` at run time; `OtherArg` stands for every object
      that fails that check (a float, a string, a `bool`, ...). */
  datatype SidesArg = IntArg(n: int) | OtherArg

  datatype Die = Die(sides: int, lastRoll: Option<int>) {
    /** The side count is never negative, and a recorded roll is a face of the die. */
    predicate Valid() {
      && sides >= 0
      && (lastRoll.Some? ==> 1 <= lastRoll.value <= sides)
    }
  }

  /** `Die(n)`: rejects a non-`int` argument with `TypeError`, then a
      negative one with `ValueError`; accepts zero and every positive count. */
  function NewDie(arg: SidesArg := IntArg(DefaultSides)): (r: Result<Die>)
    ensures r.Success? <==> arg.IntArg? && arg.n >= 0
    ensures arg.OtherArg? ==> r == Failure(TypeError(TypeMessage))
    ensures arg.IntArg? && arg.n < 0 ==> r == Failure(ValueError(NegativeMessage))
    ensures r.Success? ==> r.value.Valid()
    ensures r.Success? ==> r.value.sides == arg.n && r.value.lastRoll == None
  {
    match arg
    case OtherArg => Failure(TypeError(TypeMessage))
    case IntArg(n) =>
      if n < 0 then Failure(ValueError(NegativeMessage))
      else Success(Die(n, None))
  }

  /** The default die has six sides and has not been rolled. */
  lemma DefaultDie()
    ensures NewDie() == Success(Die(6, None))
  {
  }

  /** The state after a roll that came up `v`. */
  function RollWith(d: Die, v: int): (d': Die)
    requires d.Valid() && 1 <= v <= d.sides
    ensures d'.Valid()
    ensures d'.sides == d.sides
    ensures d'.lastRoll == Some(v)
  {
    d.(lastRoll := Some(v))
  }

  /** `roll()`: draws a face in `[1, sides]` and records it as the last roll.
      The random draw is an arbitrary choice of a face. */
  method Roll(d: Die) returns (rolled: Die, v: int)
    requires d.Valid() && d.sides >= 1
    ensures 1 <= v <= d.sides
    ensures rolled.Valid()
    ensures rolled.sides == d.sides
    ensures rolled.lastRoll == Some(v)
  {
    v :| 1 <= v <= d.sides;
    rolled := RollWith(d, v);
  }

  /** A valid draw for die `d`: every value is a face. */
  predicate Faces(d: Die, draws: seq<int>) {
    forall i :: 0 <= i < |draws| ==> 1 <= draws[i] <= d.sides
  }

  /** The state after rolling `d` once for each value of `draws`, in order. */
  function RollAll(d: Die, draws: seq<int>): Die
    requires d.Valid() && Faces(d, draws)
    decreases |draws|
  {
    if |draws| == 0 then d
    else RollAll(RollWith(d, draws[0]), draws[1..])
  }

  /** Any number of rolls keeps the die valid, never changes its side count,
      and leaves the last roll equal to the most recent draw (or untouched
      when there were none). */
  lemma {:induction false} RollsKeepState(d: Die, draws: seq<int>)
    requires d.Valid() && Faces(d, draws)
    ensures RollAll(d, draws).Valid()
    ensures RollAll(d, draws).sides == d.sides
    ensures RollAll(d, draws).lastRoll ==
      (if |draws| == 0 then d.lastRoll else Some(draws[|draws| - 1]))
    decreases |draws|
  {
    if |draws| > 0 {
      var d1 := RollWith(d, draws[0]);
      assert Faces(d1, draws[1..]);
      RollsKeepState(d1, draws[1..]);
    }
  }

  /** A freshly made die reports its construction count however often it is
      rolled, and reports no last roll until it is first rolled. */
  lemma SidesFixedFromConstruction(n: int, draws: seq<int>)
    requires n >= 0
    requires forall i :: 0 <= i < |draws| ==> 1 <= draws[i] <= n
    ensures NewDie(IntArg(n)).Success?
    ensures RollAll(NewDie(IntArg(n)).value, draws).sides == n
    ensures |draws| == 0 ==> RollAll(NewDie(IntArg(n)).value, draws).lastRoll == None
  {
  }
}
