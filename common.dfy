/** Numeric helpers shared by the statements: Python's max/min on two numbers,
    integer powers, sums and the running total that pandas' cumsum computes. */
module Common {

  datatype Option<T> = None | Some(value: T)

  /** Python's max(x, y): the larger of the two. */
  function Max(x: real, y: real): (m: real)
    ensures m >= x && m >= y
    ensures m == x || m == y
  {
    if x >= y then x else y
  }

  /** Python's min(x, y): the smaller of the two. */
  function Min(x: real, y: real): (m: real)
    ensures m <= x && m <= y
    ensures m == x || m == y
  {
    if x <= y then x else y
  }

  /** Multiplying by a non-negative factor keeps the order of two numbers. */
  lemma ScaleKeepsOrder(smaller: real, larger: real, factor: real)
    requires smaller <= larger && factor >= 0.0
    ensures smaller * factor <= larger * factor
  {
  }

  /** x to the natural power n, as numpy's ** with an integer exponent. */
  function Pow(x: real, n: nat): (r: real)
    ensures x > 0.0 ==> r > 0.0
    ensures x >= 1.0 ==> r >= 1.0
  {
    if n == 0 then 1.0 else x * Pow(x, n - 1)
  }

  /** x / y as numpy computes it on floats: a number when y is not zero, and
      no number (inf or nan) when it is. */
  function Ratio(x: real, y: real): (r: Option<real>)
    ensures r.Some? <==> y != 0.0
    ensures r.Some? ==> r.value * y == x
  {
    if y == 0.0 then None else Some(x / y)
  }

  /** Element-wise Ratio of two columns of the same length (DataFrame division). */
  function RatioColumn(xs: seq<real>, ys: seq<real>): (r: seq<Option<real>>)
    requires |xs| == |ys|
    ensures |r| == |xs|
  {
    seq(|xs|, t requires 0 <= t < |xs| => Ratio(xs[t], ys[t]))
  }

  /** Each entry of a ratio column is a number exactly where the divisor is not
      zero, and then it times the divisor gives back the dividend. */
  lemma RatioColumnAt(xs: seq<real>, ys: seq<real>, t: nat)
    requires |xs| == |ys| && t < |xs|
    ensures RatioColumn(xs, ys)[t].Some? <==> ys[t] != 0.0
    ensures RatioColumn(xs, ys)[t].Some? ==> RatioColumn(xs, ys)[t].value * ys[t] == xs[t]
  {
    var r := Ratio(xs[t], ys[t]);
    assert RatioColumn(xs, ys)[t] == r;
  }

  // ----- Element-wise column arithmetic, as pandas applies it to whole columns -----

  /** Every element times k. */
  function Scaled(xs: seq<real>, k: real): (r: seq<real>)
    ensures |r| == |xs|
  {
    seq(|xs|, t requires 0 <= t < |xs| => xs[t] * k)
  }

  /** Scaling by a non-negative factor keeps a fall from one element to the next. */
  lemma ScaledKeepsDecrease(xs: seq<real>, k: real, t: nat)
    requires 0 < t < |xs| && k >= 0.0 && xs[t] <= xs[t - 1]
    ensures Scaled(xs, k)[t] <= Scaled(xs, k)[t - 1]
  {
    ScaleKeepsOrder(xs[t], xs[t - 1], k);
  }

  /** Every element divided by k. */
  function Divided(xs: seq<real>, k: real): (r: seq<real>)
    requires k != 0.0
    ensures |r| == |xs|
  {
    seq(|xs|, t requires 0 <= t < |xs| => xs[t] / k)
  }

  /** Every element negated. */
  function Negated(xs: seq<real>): (r: seq<real>)
    ensures |r| == |xs|
  {
    seq(|xs|, t requires 0 <= t < |xs| => -xs[t])
  }

  /** A constant plus every element. */
  function Offset(c: real, xs: seq<real>): (r: seq<real>)
    ensures |r| == |xs|
  {
    seq(|xs|, t requires 0 <= t < |xs| => c + xs[t])
  }

  /** Element-wise sum of two columns of the same length. */
  function Plus(xs: seq<real>, ys: seq<real>): (r: seq<real>)
    requires |xs| == |ys|
    ensures |r| == |xs|
  {
    seq(|xs|, t requires 0 <= t < |xs| => xs[t] + ys[t])
  }

  /** Element-wise difference of two columns of the same length. */
  function Minus(xs: seq<real>, ys: seq<real>): (r: seq<real>)
    requires |xs| == |ys|
    ensures |r| == |xs|
  {
    seq(|xs|, t requires 0 <= t < |xs| => xs[t] - ys[t])
  }

  /** Element-wise product of two columns of the same length. */
  function Times(xs: seq<real>, ys: seq<real>): (r: seq<real>)
    requires |xs| == |ys|
    ensures |r| == |xs|
  {
    seq(|xs|, t requires 0 <= t < |xs| => xs[t] * ys[t])
  }

  /** The sum of a column, added up from the front. */
  function Sum(xs: seq<real>): (s: real)
  {
    if xs == [] then 0.0 else Sum(xs[..|xs| - 1]) + xs[|xs| - 1]
  }

  /** The running total of a column (pandas' cumsum): each entry is the
      previous entry plus the current element. */
  function CumSum(xs: seq<real>): (r: seq<real>)
    ensures |r| == |xs|
  {
    if xs == [] then []
    else
      var before := CumSum(xs[..|xs| - 1]);
      before + [(if before == [] then 0.0 else before[|before| - 1]) + xs[|xs| - 1]]
  }

  /** Every entry of the running total is the sum of the prefix ending there. */
  lemma {:induction false} CumSumIsPrefixSum(xs: seq<real>, t: nat)
    requires t < |xs|
    ensures CumSum(xs)[t] == Sum(xs[..t + 1])
  {
    var m := |xs| - 1;
    var init := xs[..m];
    assert xs[..m + 1] == xs;
    if t < m {
      CumSumIsPrefixSum(init, t);
      assert init[..t + 1] == xs[..t + 1];
    } else if m > 0 {
      CumSumIsPrefixSum(init, m - 1);
      assert init[..m] == init;
      assert xs[..t + 1][..m] == init;
    } else {
      assert xs[..t + 1][..m] == [];
    }
  }

  /** The sum of the positive elements: Python's sum(max(0, x) for x in xs). */
  function SumPositive(xs: seq<real>): (r: real)
    ensures r >= 0.0
    ensures forall k :: 0 <= k < |xs| ==> r >= xs[k]
  {
    if xs == [] then 0.0
    else SumPositive(xs[..|xs| - 1]) + Max(0.0, xs[|xs| - 1])
  }

  /** The positive parts add up to zero exactly when no element is positive. */
  lemma {:induction false} SumPositiveIsZero(xs: seq<real>)
    ensures SumPositive(xs) == 0.0 <==> forall k :: 0 <= k < |xs| ==> xs[k] <= 0.0
  {
    if xs != [] {
      var init := xs[..|xs| - 1];
      SumPositiveIsZero(init);
      assert forall k :: 0 <= k < |init| ==> init[k] == xs[k];
    }
  }

  /** When nothing is negative, summing only the positive elements is summing them all. */
  lemma {:induction false} SumPositiveOfNonNegative(xs: seq<real>)
    requires forall k :: 0 <= k < |xs| ==> xs[k] >= 0.0
    ensures SumPositive(xs) == Sum(xs)
  {
    if xs != [] {
      SumPositiveOfNonNegative(xs[..|xs| - 1]);
    }
  }
}
