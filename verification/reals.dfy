/** Sums of real sequences, shared by the test-data filters and the mixture
    normalisation. */
module Reals {
  /** Python's `sum` over exact reals. */
  function Sum(x: seq<real>): real
  {
    if x == [] then 0.0 else x[0] + Sum(x[1..])
  }

  /** Every element divided by `t`. */
  function Scaled(x: seq<real>, t: real): (r: seq<real>)
    requires t != 0.0
    ensures |r| == |x| && forall i :: 0 <= i < |x| ==> r[i] * t == x[i]
  {
    seq(|x|, i requires 0 <= i < |x| => x[i] / t)
  }

  /** Dividing every element by `t` divides the sum by `t`. */
  lemma {:induction false} SumScaled(x: seq<real>, t: real)
    requires t != 0.0
    ensures Sum(Scaled(x, t)) == Sum(x) / t
  {
    if x != [] {
      var s := Scaled(x, t);
      assert s[1..] == Scaled(x[1..], t);
      SumScaled(x[1..], t);
      assert Sum(s) == x[0] / t + Sum(x[1..]) / t;
      DivAdd(x[0], Sum(x[1..]), t);
    }
  }

  lemma DivAdd(a: real, b: real, t: real)
    requires t != 0.0
    ensures a / t + b / t == (a + b) / t
  {
  }

  /** Dividing by the sum itself gives a sequence that sums to exactly one. */
  lemma SumNormalised(x: seq<real>)
    requires Sum(x) != 0.0
    ensures Sum(Scaled(x, Sum(x))) == 1.0
  {
    var s := Sum(x);
    SumScaled(x, s);
    assert s / s == 1.0;
  }

  /** `max(x)`, defined on non-empty sequences. */
  function MaxOf(x: seq<real>): (m: real)
    requires x != []
    ensures forall i :: 0 <= i < |x| ==> x[i] <= m
  {
    if |x| == 1 then x[0]
    else
      var rest := MaxOf(x[1..]);
      assert forall i :: 1 <= i < |x| ==> x[i] == x[1..][i - 1];
      if x[0] < rest then rest else x[0]
  }

  /** `min(x)`, defined on non-empty sequences. */
  function MinOf(x: seq<real>): (m: real)
    requires x != []
    ensures forall i :: 0 <= i < |x| ==> m <= x[i]
  {
    if |x| == 1 then x[0]
    else
      var rest := MinOf(x[1..]);
      assert forall i :: 1 <= i < |x| ==> x[i] == x[1..][i - 1];
      if rest < x[0] then rest else x[0]
  }

  /** The greatest element is one of the elements. */
  lemma {:induction false} MaxOfAt(x: seq<real>) returns (i: nat)
    requires x != []
    ensures i < |x| && x[i] == MaxOf(x)
  {
    if |x| == 1 || x[0] >= MaxOf(x[1..]) {
      i := 0;
    } else {
      var j := MaxOfAt(x[1..]);
      i := j + 1;
    }
  }

  /** The greatest element exceeds a bound exactly when some element does. */
  lemma MaxOfAbove(x: seq<real>, t: real)
    requires x != []
    ensures MaxOf(x) > t <==> exists i :: 0 <= i < |x| && x[i] > t
  {
    var i := MaxOfAt(x);
  }

  /** The least element is one of the elements. */
  lemma {:induction false} MinOfAt(x: seq<real>) returns (i: nat)
    requires x != []
    ensures i < |x| && x[i] == MinOf(x)
  {
    if |x| == 1 || x[0] <= MinOf(x[1..]) {
      i := 0;
    } else {
      var j := MinOfAt(x[1..]);
      i := j + 1;
    }
  }

  /** Elements between two bounds sum to between the bounds times the count. */
  lemma {:induction false} SumBetween(x: seq<real>, lo: real, hi: real)
    requires forall i :: 0 <= i < |x| ==> lo <= x[i] <= hi
    ensures |x| as real * lo <= Sum(x) <= |x| as real * hi
  {
    if x != [] {
      assert forall i :: 0 <= i < |x| - 1 ==> x[1..][i] == x[i + 1];
      SumBetween(x[1..], lo, hi);
    }
  }

  /** `np.mean`, defined on non-empty sequences. */
  function Mean(x: seq<real>): real
    requires x != []
  {
    Sum(x) / |x| as real
  }

  /** The mean of elements between two bounds lies between the bounds. */
  lemma MeanBetween(x: seq<real>, lo: real, hi: real)
    requires x != [] && forall i :: 0 <= i < |x| ==> lo <= x[i] <= hi
    ensures lo <= Mean(x) <= hi
  {
    var n := |x| as real;
    SumBetween(x, lo, hi);
    assert Sum(x) / n * n == Sum(x);
    assert (Sum(x) / n - lo) * n == Sum(x) - n * lo;
    assert (hi - Sum(x) / n) * n == n * hi - Sum(x);
  }

  lemma MulPositive(x: real, y: real)
    requires x > 0.0 && y > 0.0
    ensures x * y > 0.0
  {
  }

  lemma MulNonneg(x: real, y: real)
    requires x >= 0.0 && y >= 0.0
    ensures x * y >= 0.0
  {
  }

  lemma DivNonneg(x: real, y: real)
    requires x >= 0.0 && y > 0.0
    ensures x / y >= 0.0
  {
  }

  lemma DivPositive(x: real, y: real)
    requires x > 0.0 && y > 0.0
    ensures x / y > 0.0
  {
  }

  lemma DivBelowOne(x: real, y: real)
    requires 0.0 <= x < y
    ensures 0.0 <= x / y < 1.0
  {
    DivNonneg(x, y);
    assert (1.0 - x / y) * y == y - x;
  }

  lemma MulDivCancel(f: real, a: real, c: real)
    requires a != 0.0 && c != 0.0
    ensures f * a / c * c / a == f
  {
    assert f * a / c * c == f * a;
  }

  lemma SelfDivision(d: real)
    requires d != 0.0
    ensures d / d == 1.0
  {
  }
}
