/** The two-thumb price slider: each thumb is clamped so that the lower
    bound stays below the upper one, and the props overwrite both the shown
    values and the refs the handlers read. */
module PriceRangeSlider {

  /** The `{ min, max }` reported to `onChange`. */
  datatype Bounds = Bounds(min: real, max: real)

  /** The left thumb's value: the input, but at most one below the upper
      bound. */
  function LeftValue(input: real, maxRef: real): (r: real)
    ensures r <= input && r <= maxRef - 1.0
    ensures r == input || r == maxRef - 1.0
  {
    if input <= maxRef - 1.0 then input else maxRef - 1.0
  }

  /** The right thumb's value: the input, but at least one above the lower
      bound. */
  function RightValue(input: real, minRef: real): (r: real)
    ensures r >= input && r >= minRef + 1.0
    ensures r == input || r == minRef + 1.0
  {
    if input >= minRef + 1.0 then input else minRef + 1.0
  }

  class Slider {
    var minState: real
    var maxState: real
    var minRef: real
    var maxRef: real

    /** The refs the handlers read mirror the values on show. */
    ghost predicate Valid()
      reads this
    {
      minState == minRef && maxState == maxRef
    }

    constructor(minVal: real, maxVal: real)
      ensures Valid()
      ensures minState == minVal && maxState == maxVal
    {
      minState := minVal;
      maxState := maxVal;
      minRef := minVal;
      maxRef := maxVal;
    }

    /** The effect on a new `minVal` prop. */
    method SyncMin(minVal: real)
      requires Valid()
      modifies this
      ensures Valid()
      ensures minState == minVal && minRef == minVal
      ensures maxState == old(maxState) && maxRef == old(maxRef)
    {
      minState := minVal;
      minRef := minVal;
    }

    /** The effect on a new `maxVal` prop. */
    method SyncMax(maxVal: real)
      requires Valid()
      modifies this
      ensures Valid()
      ensures maxState == maxVal && maxRef == maxVal
      ensures minState == old(minState) && minRef == old(minRef)
    {
      maxState := maxVal;
      maxRef := maxVal;
    }

    /** The left thumb moved to `input`: the new lower bound is below the
        upper one, which is reported unchanged. */
    method MoveLeft(input: real) returns (report: Bounds)
      requires Valid()
      modifies this
      ensures Valid()
      ensures minRef == LeftValue(input, old(maxRef)) && maxRef == old(maxRef)
      ensures report == Bounds(minRef, maxRef)
      ensures report.min < report.max
    {
      var value := LeftValue(input, maxRef);
      minState := value;
      minRef := value;
      report := Bounds(value, maxRef);
    }

    /** The right thumb moved to `input`: the new upper bound is above the
        lower one, which is reported unchanged. */
    method MoveRight(input: real) returns (report: Bounds)
      requires Valid()
      modifies this
      ensures Valid()
      ensures maxRef == RightValue(input, old(minRef)) && minRef == old(minRef)
      ensures report == Bounds(minRef, maxRef)
      ensures report.min < report.max
    {
      var value := RightValue(input, minRef);
      maxState := value;
      maxRef := value;
      report := Bounds(minRef, value);
    }
  }

  /** A sequence of thumb moves. */
  datatype Move = Left(input: real) | Right(input: real)

  /** The bounds after the moves, starting from `b`. */
  function AfterMoves(b: Bounds, moves: seq<Move>): Bounds
    decreases |moves|
  {
    if moves == [] then b
    else
      var m := moves[0];
      var next := match m
        case Left(v) => Bounds(LeftValue(v, b.max), b.max)
        case Right(v) => Bounds(b.min, RightValue(v, b.min));
      AfterMoves(next, moves[1..])
  }

  /** Once the lower bound is below the upper one, any sequence of thumb
      moves keeps it so; and a single move always establishes it. */
  lemma {:induction false} MovesKeepOrder(b: Bounds, moves: seq<Move>)
    requires b.min < b.max || moves != []
    ensures AfterMoves(b, moves).min < AfterMoves(b, moves).max
    decreases |moves|
  {
    if moves != [] {
      var next := match moves[0]
        case Left(v) => Bounds(LeftValue(v, b.max), b.max)
        case Right(v) => Bounds(b.min, RightValue(v, b.min));
      MovesKeepOrder(next, moves[1..]);
    }
  }
}
