/** Shared vocabulary: optional values, results carrying the kind of exception
    the Kotlin code would raise, and folds over sequences of reals. */
module Prelude {

  datatype Option<+T> = None | Some(value: T)

  /** The exceptions (or non-finite Double results) of the modelled code. */
  datatype Failure =
    | IllegalArgument   // a failed `require(...)` or `requireNotNull(...)`
    | NoSuchElement     // `first()`, `minOf`, `maxOf` on an empty collection
    | IndexOutOfBounds  // `list[i]` outside the list
    | NotFinite         // a Double division whose result would be NaN or infinite

  datatype Result<+T> = Ok(value: T) | Err(failure: Failure)

  function Abs(x: real): (r: real)
    ensures r >= 0.0 && (r == x || r == -x)
  {
    if x < 0.0 then -x else x
  }

  function Min(x: real, y: real): (r: real)
    ensures r <= x && r <= y && (r == x || r == y)
  {
    if x <= y then x else y
  }

  function Max(x: real, y: real): (r: real)
    ensures r >= x && r >= y && (r == x || r == y)
  {
    if x >= y then x else y
  }

  /** Left-to-right sum, as Kotlin's `sumOf`. */
  function Sum(s: seq<real>): real
  {
    if |s| == 0 then 0.0 else s[0] + Sum(s[1..])
  }

  lemma {:induction false} SumAppend(a: seq<real>, b: seq<real>)
    ensures Sum(a + b) == Sum(a) + Sum(b)
  {
    if |a| == 0 {
      assert a + b == b;
    } else {
      assert (a + b)[1..] == a[1..] + b;
      SumAppend(a[1..], b);
    }
  }

  /** Replacing one element changes the sum by the difference. */
  lemma {:induction false} SumUpdate(s: seq<real>, i: nat, x: real)
    requires i < |s|
    ensures Sum(s[i := x]) == Sum(s) - s[i] + x
  {
    if i == 0 {
      assert s[i := x][1..] == s[1..];
    } else {
      assert s[i := x][1..] == s[1..][i - 1 := x];
      SumUpdate(s[1..], i - 1, x);
    }
  }

  /** A lower bound of every element bounds the sum from below, |s| times over. */
  lemma {:induction false} SumAtLeast(s: seq<real>, lo: real)
    requires forall i :: 0 <= i < |s| ==> lo <= s[i]
    ensures |s| as real * lo <= Sum(s)
  {
    if |s| > 0 {
      SumAtLeast(s[1..], lo);
      assert (|s| - 1) as real * lo + lo == |s| as real * lo;
    }
  }

  lemma {:induction false} SumAtMost(s: seq<real>, hi: real)
    requires forall i :: 0 <= i < |s| ==> s[i] <= hi
    ensures Sum(s) <= |s| as real * hi
  {
    if |s| > 0 {
      SumAtMost(s[1..], hi);
      assert (|s| - 1) as real * hi + hi == |s| as real * hi;
    }
  }

  lemma {:induction false} SumNonNegative(s: seq<real>)
    requires forall i :: 0 <= i < |s| ==> 0.0 <= s[i]
    ensures 0.0 <= Sum(s)
  {
    if |s| > 0 {
      SumNonNegative(s[1..]);
    }
  }

  /** Smallest element, as Kotlin's `minOf` on a non-empty collection. */
  function MinOf(s: seq<real>): (m: real)
    requires |s| > 0
    ensures forall i :: 0 <= i < |s| ==> m <= s[i]
    ensures exists i :: 0 <= i < |s| && m == s[i]
  {
    if |s| == 1 then s[0]
    else
      var rest := MinOf(s[1..]);
      assert forall i :: 1 <= i < |s| ==> s[1..][i - 1] == s[i];
      Min(s[0], rest)
  }

  /** Largest element, as Kotlin's `maxOf` on a non-empty collection. */
  function MaxOf(s: seq<real>): (m: real)
    requires |s| > 0
    ensures forall i :: 0 <= i < |s| ==> s[i] <= m
    ensures exists i :: 0 <= i < |s| && m == s[i]
  {
    if |s| == 1 then s[0]
    else
      var rest := MaxOf(s[1..]);
      assert forall i :: 1 <= i < |s| ==> s[1..][i - 1] == s[i];
      Max(s[0], rest)
  }

  /** Number of true entries, as Kotlin's `count { ... }`. */
  function CountTrue(s: seq<bool>): (n: nat)
    ensures n <= |s|
    ensures n == 0 <==> forall i :: 0 <= i < |s| ==> !s[i]
  {
    if |s| == 0 then 0
    else
      assert forall i :: 1 <= i < |s| ==> s[1..][i - 1] == s[i];
      (if s[0] then 1 else 0) + CountTrue(s[1..])
  }

  /** Counting is additive: appending one flag adds one exactly when it is
      set. */
  lemma {:induction false} CountTrueAppend(s: seq<bool>, b: bool)
    ensures CountTrue(s + [b]) == CountTrue(s) + (if b then 1 else 0)
  {
    if |s| > 0 {
      assert (s + [b])[1..] == s[1..] + [b];
      CountTrueAppend(s[1..], b);
    }
  }

  /** A positive factor keeps the sign of the other factor. */
  lemma PositiveFactorKeepsSign(a: real, x: real)
    requires a > 0.0
    ensures a * x > 0.0 <==> x > 0.0
    ensures a * x < 0.0 <==> x < 0.0
  {
    if x > 0.0 {
      assert a * x > 0.0;
    } else if x < 0.0 {
      assert a * (-x) > 0.0;
    }
  }

  lemma ProductBounds(a: int, d: int)
    requires a > 0
    ensures d >= 1 ==> a * d >= a
    ensures d <= -1 ==> a * d <= -a
  {
  }

  /** Euclidean division by a positive divisor is pinned down by its bounds. */
  lemma DivisionUnique(x: int, d: int, q: int)
    requires d > 0
    requires q * d <= x < q * d + d
    ensures x / d == q
  {
    var p := x / d;
    assert x == d * p + x % d && 0 <= x % d < d;
    assert d * (p - q) == (x - x % d) - q * d;
    ProductBounds(d, p - q);
  }

  lemma QuotientBounds(x: real, lo: real, hi: real, n: real)
    requires n > 0.0
    requires n * lo <= x <= n * hi
    ensures lo <= x / n <= hi
  {
    var q := x / n;
    assert x == n * q;
    assert n * (q - lo) >= 0.0;
    assert n * (hi - q) >= 0.0;
  }

  /** Bounds on every element bound the average. */
  lemma AverageWithin(s: seq<real>, lo: real, hi: real)
    requires |s| > 0
    requires forall i :: 0 <= i < |s| ==> lo <= s[i] <= hi
    ensures lo <= Sum(s) / |s| as real <= hi
  {
    SumAtLeast(s, lo);
    SumAtMost(s, hi);
    QuotientBounds(Sum(s), lo, hi, |s| as real);
  }

  /** The average of a non-empty sequence lies between its extremes. */
  lemma AverageWithinExtremes(s: seq<real>)
    requires |s| > 0
    ensures MinOf(s) <= Sum(s) / |s| as real <= MaxOf(s)
  {
    AverageWithin(s, MinOf(s), MaxOf(s));
  }

  /** Arithmetic mean of a non-empty sequence. */
  function Average(s: seq<real>): real
    requires |s| > 0
  {
    Sum(s) / |s| as real
  }

  /** The mean spread back over every element gives the total. */
  lemma AverageTimesLength(s: seq<real>, q: real, n: int)
    requires |s| > 0 && n == |s| && q == Average(s)
    ensures q * n as real == Sum(s)
  {
    QuotientTimesDivisor(q, Sum(s), n as real);
  }

  /** Dividing by a non-zero number and multiplying back is the identity. */
  lemma QuotientTimesDivisor(q: real, x: real, n: real)
    requires n != 0.0 && q == x / n
    ensures q * n == x
  {
  }
}
