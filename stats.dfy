/**
 * The aggregates `summarize_data` applies to a column (app.py, lines 27-36):
 * pandas `mean`, `max` and `min` over a fully populated numeric column, the
 * `int(...)` cast and `round(..., 2)`. Readings are exact reals; the
 * floating-point error of the original is not modelled.
 */
module Stats {

  predicate IsLargest(c: seq<real>, m: real) {
    m in c && forall x :: x in c ==> x <= m
  }

  predicate IsSmallest(c: seq<real>, m: real) {
    m in c && forall x :: x in c ==> m <= x
  }

  function Sum(c: seq<real>): real {
    if |c| == 0 then 0.0 else c[0] + Sum(c[1..])
  }

  /** `Series.mean()`: the arithmetic average. */
  function Mean(c: seq<real>): real
    requires |c| > 0
  {
    Sum(c) / (|c| as real)
  }

  /** `Series.max()`: a reading no other reading exceeds. */
  function Max(c: seq<real>): (m: real)
    requires |c| > 0
    ensures IsLargest(c, m)
  {
    if |c| == 1 then c[0]
    else
      var rest := Max(c[1..]);
      assert forall x :: x in c ==> x == c[0] || x in c[1..];
      if c[0] >= rest then c[0] else rest
  }

  /** `Series.min()`: a reading no other reading is below. */
  function Min(c: seq<real>): (m: real)
    requires |c| > 0
    ensures IsSmallest(c, m)
  {
    if |c| == 1 then c[0]
    else
      var rest := Min(c[1..]);
      assert forall x :: x in c ==> x == c[0] || x in c[1..];
      if c[0] <= rest then c[0] else rest
  }

  /** Python's `int(x)` on a float: truncation toward zero. */
  function Trunc(x: real): (r: int)
    ensures 0.0 <= x ==> 0 <= r && r as real <= x < r as real + 1.0
    ensures x < 0.0 ==> r <= 0 && r as real - 1.0 < x <= r as real
  {
    if x >= 0.0 then x.Floor else -((-x).Floor)
  }

  /**
   * `round(x, 2)` on a numpy float: `x * 100` rounded to the nearest
   * integer, ties to the even one, then divided by 100.
   */
  function Round2(x: real): (r: real)
    ensures -0.005 <= r - x <= 0.005
    ensures (r * 100.0).Floor as real == r * 100.0
  {
    (RoundHalfEven(x * 100.0) as real) / 100.0
  }

  /** The integer nearest to `y`; of two equally near, the even one. */
  function RoundHalfEven(y: real): (n: int)
    ensures -0.5 <= n as real - y <= 0.5
    ensures (n as real - y == 0.5 || y - n as real == 0.5) ==> n % 2 == 0
  {
    var f := y.Floor;
    var d := y - f as real;
    if d < 0.5 then f
    else if d > 0.5 then f + 1
    else if f % 2 == 0 then f else f + 1
  }

  // ---------------------------------------------------------------------

  /** The average lies between the smallest and the largest reading. */
  lemma MeanBetweenMinAndMax(c: seq<real>)
    requires |c| > 0
    ensures Min(c) <= Mean(c) <= Max(c)
  {
    MeanBounds(c, Min(c), Max(c));
  }

  /** An average of readings between `lo` and `hi` lies between them too. */
  lemma MeanBounds(c: seq<real>, lo: real, hi: real)
    requires |c| > 0
    requires forall x :: x in c ==> lo <= x <= hi
    ensures lo <= Mean(c) <= hi
  {
    SumBounds(c, lo, hi);
    DivBounds(Sum(c), |c| as real, lo, hi);
  }

  lemma DivBounds(s: real, n: real, lo: real, hi: real)
    requires n > 0.0 && n * lo <= s <= n * hi
    ensures lo <= s / n <= hi
  {
    assert s / n * n == s;
  }

  /** A sum of readings between `lo` and `hi` lies between `|c| * lo` and `|c| * hi`. */
  lemma {:induction false} SumBounds(c: seq<real>, lo: real, hi: real)
    requires forall x :: x in c ==> lo <= x <= hi
    ensures (|c| as real) * lo <= Sum(c) <= (|c| as real) * hi
  {
    if |c| > 0 {
      assert c[0] in c;
      assert forall x :: x in c[1..] ==> x in c;
      SumBounds(c[1..], lo, hi);
      var m := |c[1..]| as real;
      assert (|c| as real) * lo == m * lo + lo;
      assert (|c| as real) * hi == m * hi + hi;
    }
  }

  /** The sum of two runs of readings is the sum of their sums. */
  lemma {:induction false} SumConcat(a: seq<real>, b: seq<real>)
    ensures Sum(a + b) == Sum(a) + Sum(b)
  {
    if |a| == 0 {
      assert a + b == b;
    } else {
      assert (a + b)[1..] == a[1..] + b;
      SumConcat(a[1..], b);
    }
  }

  /** The sum does not depend on the order of the readings. */
  lemma {:induction false} SumPermutation(c: seq<real>, d: seq<real>)
    requires multiset(c) == multiset(d)
    ensures Sum(c) == Sum(d)
    decreases |c|
  {
    if |c| == 0 {
      assert |d| == |multiset(d)| == 0;
    } else {
      var x := c[0];
      assert x in multiset(d);
      var i :| 0 <= i < |d| && d[i] == x;
      var rest := d[..i] + d[i + 1..];
      assert d == d[..i] + ([x] + d[i + 1..]);
      assert c == [x] + c[1..];
      calc {
        multiset(c[1..]);
        multiset(c) - multiset{x};
        multiset(d[..i]) + multiset{x} + multiset(d[i + 1..]) - multiset{x};
        multiset(rest);
      }
      SumPermutation(c[1..], rest);
      SumConcat(d[..i], [x] + d[i + 1..]);
      SumConcat([x], d[i + 1..]);
      SumConcat(d[..i], d[i + 1..]);
    }
  }

  /**
   * `mean`, `max` and `min` depend only on which readings a column holds and
   * how often, not on the order of the rows.
   */
  lemma AggregatesIgnoreOrder(c: seq<real>, d: seq<real>)
    requires |c| > 0 && multiset(c) == multiset(d)
    ensures |d| > 0
    ensures Mean(c) == Mean(d) && Max(c) == Max(d) && Min(c) == Min(d)
  {
    assert |c| == |multiset(c)| == |multiset(d)| == |d|;
    SumPermutation(c, d);
    forall x ensures x in c <==> x in d {
      assert x in c <==> x in multiset(c);
      assert x in d <==> x in multiset(d);
    }
  }

  /** `int(...)` never reverses the order of two values. */
  lemma TruncMonotone(x: real, y: real)
    requires x <= y
    ensures Trunc(x) <= Trunc(y)
  {
  }

  /** Neither does `round(..., 2)`. */
  lemma Round2Monotone(x: real, y: real)
    requires x <= y
    ensures Round2(x) <= Round2(y)
  {
    RoundHalfEvenMonotone(x * 100.0, y * 100.0);
  }

  lemma RoundHalfEvenMonotone(x: real, y: real)
    requires x <= y
    ensures RoundHalfEven(x) <= RoundHalfEven(y)
  {
  }

  /** A value already given to two decimal places is left unchanged by `round(..., 2)`. */
  lemma Round2FixedPoint(k: int)
    ensures Round2(k as real / 100.0) == k as real / 100.0
  {
    assert (k as real / 100.0) * 100.0 == k as real;
  }
}
