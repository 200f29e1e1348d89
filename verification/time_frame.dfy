/** Bar intervals and the rule deciding which coarser interval a series may be
    re-aggregated into. */
module TimeFrames {
  import opened Prelude

  datatype TimeFrame = SEC_1 | SEC_15 | MIN_1 | MIN_5 | MIN_15 | HOUR_1 | HOUR_4 | DAY_1 | WEEK_1

  /** Length of one bar of this interval, in seconds. */
  function Seconds(tf: TimeFrame): (s: int)
    ensures s >= 1
  {
    match tf
    case SEC_1 => 1
    case SEC_15 => 15
    case MIN_1 => 60
    case MIN_5 => 5 * 60
    case MIN_15 => 15 * 60
    case HOUR_1 => 3600
    case HOUR_4 => 4 * 3600
    case DAY_1 => 86400
    case WEEK_1 => 7 * 86400
  }

  /** The enum constants in declaration order. */
  const Declared: seq<TimeFrame> :=
    [SEC_1, SEC_15, MIN_1, MIN_5, MIN_15, HOUR_1, HOUR_4, DAY_1, WEEK_1]

  lemma DeclaredIsComplete(tf: TimeFrame)
    ensures tf in Declared
  {
  }

  lemma SecondsIncreaseInDeclarationOrder()
    ensures forall i, j :: 0 <= i < j < |Declared| ==> Seconds(Declared[i]) < Seconds(Declared[j])
  {
  }

  /** A series of interval `tf` can be aggregated into bars of interval `other`
      when `other` is strictly longer and a whole multiple of `tf`. */
  predicate CanBeDownSampledTo(tf: TimeFrame, other: TimeFrame)
  {
    Seconds(other) > Seconds(tf) && Seconds(other) % Seconds(tf) == 0
  }

  /** `(a * n) % a == 0`: a multiple of `a` leaves no remainder. */
  lemma MultipleHasNoRemainder(a: int, n: int)
    requires a > 0
    ensures (a * n) % a == 0
  {
    var q := (a * n) / a;
    var r := (a * n) % a;
    assert a * n == a * q + r && 0 <= r < a;
    assert a * (n - q) == r;
    ProductBounds(a, n - q);
  }

  lemma DividesTransitive(a: int, b: int, c: int)
    requires a > 0 && b > 0
    requires b % a == 0 && c % b == 0
    ensures c % a == 0
  {
    var k := b / a;
    var m := c / b;
    assert b == a * k;
    assert c == b * m;
    calc {
      c;
      (a * k) * m;
      a * (k * m);
    }
    MultipleHasNoRemainder(a, k * m);
  }

  lemma DownSamplingIsIrreflexive(tf: TimeFrame)
    ensures !CanBeDownSampledTo(tf, tf)
  {
  }

  lemma DownSamplingIsAsymmetric(a: TimeFrame, b: TimeFrame)
    ensures CanBeDownSampledTo(a, b) ==> !CanBeDownSampledTo(b, a)
  {
  }

  lemma {:induction false} DownSamplingIsTransitive(a: TimeFrame, b: TimeFrame, c: TimeFrame)
    requires CanBeDownSampledTo(a, b) && CanBeDownSampledTo(b, c)
    ensures CanBeDownSampledTo(a, c)
  {
    DividesTransitive(Seconds(a), Seconds(b), Seconds(c));
  }

  /** A permitted down-sampling merges at least two source bars per target bar. */
  lemma DownSamplingStepAtLeastTwo(tf: TimeFrame, other: TimeFrame)
    requires CanBeDownSampledTo(tf, other)
    ensures Seconds(other) / Seconds(tf) >= 2
    ensures (Seconds(other) / Seconds(tf)) * Seconds(tf) == Seconds(other)
  {
  }

  /** One minute bars fold into five minute bars, not the other way round. */
  lemma OneMinuteToFiveMinutes()
    ensures CanBeDownSampledTo(MIN_1, MIN_5)
    ensures !CanBeDownSampledTo(MIN_5, MIN_1)
  {
  }
}
