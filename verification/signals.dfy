/** Signals: true/false series over the same backwards bar index as the
    indicators, their boolean combinators and the comparisons and
    crossovers that turn indicators into signals. */
module Signals {
  import opened Indicators

  type Signal = int -> bool

  /** `get(index)`, the operator form of `value`. */
  function SignalAt(s: Signal, index: int): bool
  {
    s(index)
  }

  /** `latestValue`: the signal at the newest bar. */
  function LatestSignal(s: Signal): (b: bool)
    ensures b == SignalAt(s, 0)
  {
    s(0)
  }

  function And(a: Signal, b: Signal): (r: Signal)
    ensures forall index :: r(index) <==> a(index) && b(index)
  {
    index => a(index) && b(index)
  }

  function Or(a: Signal, b: Signal): (r: Signal)
    ensures forall index :: r(index) <==> a(index) || b(index)
  {
    index => a(index) || b(index)
  }

  /** `inverted()`; the `!` operator is the same function. */
  function Not(s: Signal): (r: Signal)
    ensures forall index :: r(index) <==> !s(index)
  {
    index => !s(index)
  }

  /** Inverting twice gives the signal back, and inversion swaps `and` and
      `or` (De Morgan); the newest value of a combination is the combination
      of the newest values. */
  lemma SignalAlgebra(a: Signal, b: Signal, index: int)
    ensures LatestSignal(And(a, b)) == (LatestSignal(a) && LatestSignal(b))
    ensures LatestSignal(Or(a, b)) == (LatestSignal(a) || LatestSignal(b))
    ensures LatestSignal(Not(a)) == !LatestSignal(a)
    ensures Not(Not(a))(index) == a(index)
    ensures Not(And(a, b))(index) == Or(Not(a), Not(b))(index)
    ensures Not(Or(a, b))(index) == And(Not(a), Not(b))(index)
    ensures And(a, Not(a))(index) == false && Or(a, Not(a))(index) == true
  {
  }

  /** `isOver(other)`: strictly above the other indicator at that index. */
  function IsOver(a: Indicator, b: Indicator): Signal
  {
    index => a(index) > b(index)
  }

  function IsOverValue(a: Indicator, v: real): Signal
  {
    index => a(index) > v
  }

  function IsUnder(a: Indicator, b: Indicator): Signal
  {
    index => a(index) < b(index)
  }

  function IsUnderValue(a: Indicator, v: real): Signal
  {
    index => a(index) < v
  }

  function IsPositive(a: Indicator): Signal
  {
    index => a(index) > 0.0
  }

  function IsNegative(a: Indicator): Signal
  {
    index => a(index) < 0.0
  }

  /** Over and under are exclusive, and both fail exactly where the values
      are equal; the value forms and the sign checks are comparisons against a
      constant indicator. */
  lemma ComparisonsAgree(a: Indicator, b: Indicator, v: real, index: int)
    ensures !(IsOver(a, b)(index) && IsUnder(a, b)(index))
    ensures !IsOver(a, b)(index) && !IsUnder(a, b)(index) <==> a(index) == b(index)
    ensures IsOver(a, b)(index) == IsUnder(b, a)(index)
    ensures IsOverValue(a, v)(index) == IsOver(a, Constant(v))(index)
    ensures IsUnderValue(a, v)(index) == IsUnder(a, Constant(v))(index)
    ensures IsPositive(a)(index) == IsOverValue(a, 0.0)(index)
    ensures IsNegative(a)(index) == IsUnderValue(a, 0.0)(index)
  {
  }

  /** `crossedOver(other)`: above the other now, not above it one bar
      earlier (index `index + 1`). */
  function CrossedOver(a: Indicator, b: Indicator): Signal
  {
    index => a(index) > b(index) && a(index + 1) <= b(index + 1)
  }

  function CrossedOverValue(a: Indicator, v: real): Signal
  {
    index => a(index) > v && a(index + 1) <= v
  }

  function CrossedUnder(a: Indicator, b: Indicator): Signal
  {
    index => a(index) < b(index) && a(index + 1) >= b(index + 1)
  }

  function CrossedUnderValue(a: Indicator, v: real): Signal
  {
    index => a(index) < v && a(index + 1) >= v
  }

  /** A crossover is the moment `isOver` switches on: it holds now and did
      not hold one bar earlier; dually for crossing under. */
  lemma CrossingIsAnEdge(a: Indicator, b: Indicator, index: int)
    ensures CrossedOver(a, b)(index) <==> IsOver(a, b)(index) && !IsOver(a, b)(index + 1)
    ensures CrossedUnder(a, b)(index) <==> IsUnder(a, b)(index) && !IsUnder(a, b)(index + 1)
    ensures CrossedOver(a, b)(index) ==> IsOver(a, b)(index)
    ensures CrossedUnder(a, b)(index) ==> IsUnder(a, b)(index)
  {
  }

  /** The two crossings never fire on the same bar. */
  lemma CrossingsAreExclusive(a: Indicator, b: Indicator, v: real, index: int)
    ensures !(CrossedOver(a, b)(index) && CrossedUnder(a, b)(index))
    ensures !(CrossedOverValue(a, v)(index) && CrossedUnderValue(a, v)(index))
  {
  }

  /** Crossing a fixed value is crossing the constant indicator of that
      value, and `a` crossing over `b` is `b` crossing under `a`. */
  lemma CrossingValueIsCrossingConstant(a: Indicator, b: Indicator, v: real, index: int)
    ensures CrossedOverValue(a, v)(index) == CrossedOver(a, Constant(v))(index)
    ensures CrossedUnderValue(a, v)(index) == CrossedUnder(a, Constant(v))(index)
    ensures CrossedOver(a, b)(index) == CrossedUnder(b, a)(index)
  {
  }
}
