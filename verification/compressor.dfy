/** The flow and seal arithmetic of the compressor models: the seal constant and
    its inverse, the interpolation of Mach and Reynolds numbers in flow
    coefficient, the leakage mass balances of a back-to-back compressor, and the
    rotor flows and bearing losses of a straight-through one. Fluid properties
    (compressibility, temperatures, molar mass) arrive as numbers; `np.sqrt` is a
    parameter. */
module Compressor {
  import opened Wrappers
  import Reals

  // ---------------------------------------------------------------------------
  // Seal constant

  /** What the seal formulas need of `np.sqrt`: positive roots of positive numbers. */
  ghost predicate RootLike(sqrt: real -> real)
  {
    forall x :: x > 0.0 ==> sqrt(x) > 0.0
  }

  /** The state upstream of a seal: pressure, compressibility factor, absolute
      temperature and molar mass. */
  datatype Upstream = Upstream(p: real, z: real, t: real, mw: real)

  /** `1 - (p_down / p_up) ** 2`. */
  function PressureTerm(pUp: real, pDown: real): real
    requires pUp != 0.0
  {
    1.0 - (pDown / pUp) * (pDown / pUp)
  }

  /** `z·T/MW`, the factor of the gas's specific volume the seal formulas take the
      root of. */
  function VolumeFactor(up: Upstream): real
    requires up.mw != 0.0
  {
    up.z * up.t / up.mw
  }

  /** `k_seal`: the seal constant of a measured seal flow. A zero molar mass, a
      zero upstream pressure or a vanishing pressure term divides by zero. */
  function KSeal(flowM: real, up: Upstream, pDown: real, sqrt: real -> real): (r: Result<real>)
    ensures r.Fail? <==> up.mw == 0.0 || up.p == 0.0 || sqrt(PressureTerm(up.p, pDown)) == 0.0
    ensures r.Fail? ==> r.exc == ZeroDivisionError
  {
    if up.mw == 0.0 || up.p == 0.0 then Fail(ZeroDivisionError)
    else
      var den := up.p * sqrt(PressureTerm(up.p, pDown));
      if den == 0.0 then Fail(ZeroDivisionError)
      else Ok(flowM * sqrt(VolumeFactor(up)) / den)
  }

  /** `flow_m_seal`: the seal flow of a seal constant. */
  function FlowMSeal(k: real, up: Upstream, pDown: real, sqrt: real -> real): (r: Result<real>)
    ensures r.Fail? <==> up.mw == 0.0 || up.p == 0.0 || sqrt(VolumeFactor(up)) == 0.0
    ensures r.Fail? ==> r.exc == ZeroDivisionError
  {
    if up.p == 0.0 || up.mw == 0.0 then Fail(ZeroDivisionError)
    else
      var root := sqrt(VolumeFactor(up));
      if root == 0.0 then Fail(ZeroDivisionError)
      else Ok(k * up.p * sqrt(PressureTerm(up.p, pDown)) / root)
  }

  /** The conditions under which the seal formulas are each other's inverse: flow
      from a higher to a lower non-negative pressure, and a positive z·T/MW. */
  ghost predicate SealFlowing(up: Upstream, pDown: real, sqrt: real -> real)
  {
    RootLike(sqrt) && up.p > 0.0 && 0.0 <= pDown < up.p && up.mw != 0.0 && VolumeFactor(up) > 0.0
  }

  lemma SealRoots(up: Upstream, pDown: real, sqrt: real -> real)
    requires SealFlowing(up, pDown, sqrt)
    ensures sqrt(VolumeFactor(up)) > 0.0 && sqrt(PressureTerm(up.p, pDown)) > 0.0
  {
    var q := pDown / up.p;
    Reals.DivBelowOne(pDown, up.p);
    Reals.MulNonneg(q, 1.0 - q);
    assert q * q <= q;
  }

  /** The seal constant of a flowing seal, written with the two roots. */
  lemma KSealOf(flowM: real, up: Upstream, pDown: real, sqrt: real -> real)
    requires SealFlowing(up, pDown, sqrt)
    ensures KSeal(flowM, up, pDown, sqrt).Ok?
    ensures KSeal(flowM, up, pDown, sqrt).value
      == flowM * sqrt(VolumeFactor(up)) / (up.p * sqrt(PressureTerm(up.p, pDown)))
  {
    SealRoots(up, pDown, sqrt);
    Reals.MulPositive(up.p, sqrt(PressureTerm(up.p, pDown)));
  }

  /** The seal flow of a flowing seal, written with the two roots. */
  lemma FlowMSealOf(k: real, up: Upstream, pDown: real, sqrt: real -> real)
    requires SealFlowing(up, pDown, sqrt)
    ensures FlowMSeal(k, up, pDown, sqrt).Ok?
    ensures FlowMSeal(k, up, pDown, sqrt).value
      == k * (up.p * sqrt(PressureTerm(up.p, pDown))) / sqrt(VolumeFactor(up))
  {
    SealRoots(up, pDown, sqrt);
    var b := sqrt(PressureTerm(up.p, pDown));
    assert k * up.p * b == k * (up.p * b);
  }

  /** The flow of the constant of a flow is that flow. */
  lemma SealRoundTrip(flowM: real, up: Upstream, pDown: real, sqrt: real -> real)
    requires SealFlowing(up, pDown, sqrt)
    ensures KSeal(flowM, up, pDown, sqrt).Ok?
    ensures FlowMSeal(KSeal(flowM, up, pDown, sqrt).value, up, pDown, sqrt).Ok?
    ensures FlowMSeal(KSeal(flowM, up, pDown, sqrt).value, up, pDown, sqrt).value == flowM
  {
    SealRoots(up, pDown, sqrt);
    var a := sqrt(VolumeFactor(up));
    var c := up.p * sqrt(PressureTerm(up.p, pDown));
    Reals.MulPositive(up.p, sqrt(PressureTerm(up.p, pDown)));
    KSealOf(flowM, up, pDown, sqrt);
    FlowMSealOf(flowM * a / c, up, pDown, sqrt);
    Reals.MulDivCancel(flowM, a, c);
  }

  /** The constant of the flow of a constant is that constant. */
  lemma SealRoundTripBack(k: real, up: Upstream, pDown: real, sqrt: real -> real)
    requires SealFlowing(up, pDown, sqrt)
    ensures FlowMSeal(k, up, pDown, sqrt).Ok?
    ensures KSeal(FlowMSeal(k, up, pDown, sqrt).value, up, pDown, sqrt).Ok?
    ensures KSeal(FlowMSeal(k, up, pDown, sqrt).value, up, pDown, sqrt).value == k
  {
    SealRoots(up, pDown, sqrt);
    var a := sqrt(VolumeFactor(up));
    var c := up.p * sqrt(PressureTerm(up.p, pDown));
    Reals.MulPositive(up.p, sqrt(PressureTerm(up.p, pDown)));
    FlowMSealOf(k, up, pDown, sqrt);
    KSealOf(k * c / a, up, pDown, sqrt);
    Reals.MulDivCancel(k, c, a);
  }

  // ---------------------------------------------------------------------------
  // Mean seal constant

  /** `ks[ks != 0]`. */
  function NonZero(ks: seq<real>): (r: seq<real>)
    ensures |r| <= |ks|
    ensures forall i :: 0 <= i < |r| ==> r[i] != 0.0
  {
    if ks == [] then []
    else (if ks[0] != 0.0 then [ks[0]] else []) + NonZero(ks[1..])
  }

  /** The mean of the non-zero seal constants, or 0 when every constant is 0. */
  function SealMean(ks: seq<real>): real
  {
    var nz := NonZero(ks);
    if nz == [] then 0.0 else Reals.Mean(nz)
  }

  /** The mean is 0 exactly when every constant is 0 ... */
  lemma SealMeanZero(ks: seq<real>)
    requires forall i :: 0 <= i < |ks| ==> ks[i] == 0.0
    ensures SealMean(ks) == 0.0
  {
    NonZeroNone(ks);
  }

  lemma {:induction false} NonZeroNone(ks: seq<real>)
    requires forall i :: 0 <= i < |ks| ==> ks[i] == 0.0
    ensures NonZero(ks) == []
  {
    if ks != [] {
      NonZeroNone(ks[1..]);
    }
  }

  /** A non-zero constant is kept. */
  lemma {:induction false} NonZeroKeeps(ks: seq<real>, i: nat)
    requires i < |ks| && ks[i] != 0.0
    ensures NonZero(ks) != []
  {
    if i > 0 && ks[0] == 0.0 {
      NonZeroKeeps(ks[1..], i - 1);
    }
  }

  /** Bounds on the non-zero constants bound every kept constant. */
  lemma {:induction false} NonZeroWithin(ks: seq<real>, lo: real, hi: real)
    requires forall i :: 0 <= i < |ks| && ks[i] != 0.0 ==> lo <= ks[i] <= hi
    ensures forall j :: 0 <= j < |NonZero(ks)| ==> lo <= NonZero(ks)[j] <= hi
  {
    if ks != [] {
      NonZeroWithin(ks[1..], lo, hi);
      var head: seq<real> := if ks[0] != 0.0 then [ks[0]] else [];
      assert NonZero(ks) == head + NonZero(ks[1..]);
    }
  }

  /** ... and otherwise lies between any bounds of the non-zero constants: the
      least and the greatest of them in particular. */
  lemma SealMeanBetween(ks: seq<real>, lo: real, hi: real)
    requires exists i :: 0 <= i < |ks| && ks[i] != 0.0
    requires forall i :: 0 <= i < |ks| && ks[i] != 0.0 ==> lo <= ks[i] <= hi
    ensures lo <= SealMean(ks) <= hi
  {
    var i :| 0 <= i < |ks| && ks[i] != 0.0;
    NonZeroKeeps(ks, i);
    NonZeroWithin(ks, lo, hi);
    Reals.MeanBetween(NonZero(ks), lo, hi);
  }

  lemma DivBetween(s: real, n: real, lo: real, hi: real)
    requires n > 0.0 && n * lo <= s <= n * hi
    ensures lo <= s / n <= hi
  {
    assert s / n * n == s;
  }

  // ---------------------------------------------------------------------------
  // Interpolation in flow coefficient

  const EmptyMinMessage := "min() arg is an empty sequence"

  /** `[phi_ for phi_ in phi_values if (phi_ - phi) < 0]`. */
  function Below(phis: seq<real>, phi: real): (r: seq<real>)
    ensures forall i :: 0 <= i < |r| ==> r[i] < phi
  {
    if phis == [] then []
    else (if phis[0] - phi < 0.0 then [phis[0]] else []) + Below(phis[1..], phi)
  }

  /** `[phi_ for phi_ in phi_values if (phi_ - phi) > 0]`. */
  function Above(phis: seq<real>, phi: real): (r: seq<real>)
    ensures forall i :: 0 <= i < |r| ==> r[i] > phi
  {
    if phis == [] then []
    else (if phis[0] - phi > 0.0 then [phis[0]] else []) + Above(phis[1..], phi)
  }

  /** A value below is kept by `Below`, one above by `Above`. */
  lemma {:induction false} BelowKeeps(phis: seq<real>, phi: real, i: nat)
    requires i < |phis| && phis[i] < phi
    ensures Below(phis, phi) != []
  {
    if i > 0 && phis[0] >= phi {
      BelowKeeps(phis[1..], phi, i - 1);
    }
  }

  lemma {:induction false} AboveKeeps(phis: seq<real>, phi: real, i: nat)
    requires i < |phis| && phis[i] > phi
    ensures Above(phis, phi) != []
  {
    if i > 0 && phis[0] <= phi {
      AboveKeeps(phis[1..], phi, i - 1);
    }
  }

  /** What the comprehensions keep comes from the list. */
  lemma {:induction false} BelowIn(phis: seq<real>, phi: real, i: nat)
    requires i < |Below(phis, phi)|
    ensures Below(phis, phi)[i] in phis
  {
    if phis[0] - phi < 0.0 && i == 0 {
    } else {
      var j := if phis[0] - phi < 0.0 then i - 1 else i;
      BelowIn(phis[1..], phi, j);
    }
  }

  lemma {:induction false} AboveIn(phis: seq<real>, phi: real, i: nat)
    requires i < |Above(phis, phi)|
    ensures Above(phis, phi)[i] in phis
  {
    if phis[0] - phi > 0.0 && i == 0 {
    } else {
      var j := if phis[0] - phi > 0.0 then i - 1 else i;
      AboveIn(phis[1..], phi, j);
    }
  }

  lemma {:induction false} AtMostIn(phis: seq<real>, phi: real, i: nat)
    requires i < |AtMost(phis, phi)|
    ensures AtMost(phis, phi)[i] in phis
  {
    if phis[0] - phi <= 0.0 && i == 0 {
    } else {
      var j := if phis[0] - phi <= 0.0 then i - 1 else i;
      AtMostIn(phis[1..], phi, j);
    }
  }

  /** `list.index`: the first position of a value. */
  function Index(s: seq<real>, x: real): (i: nat)
    requires x in s
    ensures i < |s| && s[i] == x
  {
    if s[0] == x then 0 else Index(s[1..], x) + 1
  }

  /** The straight line through (x0, y0) and (x1, y1), at x. */
  function Lerp(x: real, x0: real, x1: real, y0: real, y1: real): (r: real)
    requires x0 != x1
    ensures (r - y0) * (x1 - x0) == (y1 - y0) * (x - x0)
  {
    y0 + (y1 - y0) * (x - x0) / (x1 - x0)
  }

  /** The line passes through both of its points. */
  lemma LerpEnds(x0: real, x1: real, y0: real, y1: real)
    requires x0 != x1
    ensures Lerp(x0, x0, x1, y0, y1) == y0 && Lerp(x1, x0, x1, y0, y1) == y1
  {
    var r := Lerp(x1, x0, x1, y0, y1);
    assert (r - y0) * (x1 - x0) == (y1 - y0) * (x1 - x0);
  }

  /** Between its points the line stays between their values. */
  lemma LerpBetween(x: real, x0: real, x1: real, y0: real, y1: real)
    requires x0 < x < x1
    ensures var r := Lerp(x, x0, x1, y0, y1);
      (y0 <= y1 ==> y0 <= r <= y1) && (y1 <= y0 ==> y1 <= r <= y0)
  {
    var d := x1 - x0;
    var t := (x - x0) / d;
    Reals.DivPositive(x - x0, d);
    Reals.DivPositive(x1 - x, d);
    Reals.SelfDivision(d);
    assert (x - x0) / d + (x1 - x) / d == d / d;
    assert 1.0 - t == (x1 - x) / d;
    assert Lerp(x, x0, x1, y0, y1) == y0 + (y1 - y0) * t;
    if y0 <= y1 {
      Reals.MulNonneg(y1 - y0, t);
      Reals.MulNonneg(y1 - y0, 1.0 - t);
    } else {
      Reals.MulNonneg(y0 - y1, t);
      Reals.MulNonneg(y0 - y1, 1.0 - t);
    }
  }

  /** The two flow coefficients `parameter_interpolation` draws its line through, as
      written: strictly below and strictly above the given one. */
  function Neighbours(phi: real, phis: seq<real>): (r: Result<(real, real)>)
    requires phis != []
    ensures r.Fail? ==> r.exc == IndexError
    ensures r.Ok? ==> r.value.0 in phis && r.value.1 in phis
  {
    if phi < Reals.MinOf(phis) then
      if |phis| < 2 then Fail(IndexError) else Ok((phis[0], phis[1]))
    else if phi > Reals.MaxOf(phis) then
      if |phis| < 2 then Fail(IndexError) else Ok((phis[|phis| - 2], phis[|phis| - 1]))
    else
      var below := Below(phis, phi);
      var above := Above(phis, phi);
      if below == [] || above == [] then Fail(IndexError)
      else
        BelowIn(phis, phi, |below| - 1);
        AboveIn(phis, phi, 0);
        Ok((below[|below| - 1], above[0]))
  }

  /** The line through two points' parameters at the first positions of their flow
      coefficients. */
  function LineThrough(phi: real, phis: seq<real>, params: seq<real>, ends: (real, real)): (r: Result<real>)
    requires ends.0 in phis && ends.1 in phis
    ensures r.Fail? ==> r.exc == IndexError || r.exc == ZeroDivisionError
    ensures r.Ok? ==> OnLineOfPoints(phi, phis, params, r.value)
  {
    var i0 := Index(phis, ends.0);
    var i1 := Index(phis, ends.1);
    if i0 >= |params| || i1 >= |params| then Fail(IndexError)
    else if ends.1 == ends.0 then Fail(ZeroDivisionError)
    else Ok(Lerp(phi, ends.0, ends.1, params[i0], params[i1]))
  }

  /** `y` lies, at `phi`, on the line through the points of two distinct flow
      coefficients of the curve. */
  ghost predicate OnLineOfPoints(phi: real, phis: seq<real>, params: seq<real>, y: real)
  {
    exists i, j :: 0 <= i < |phis| && 0 <= j < |phis| && i < |params| && j < |params| && phis[i] != phis[j]
      && (y - params[i]) * (phis[j] - phis[i]) == (params[j] - params[i]) * (phi - phis[i])
  }

  /** `parameter_interpolation(phi, phi_values, parameter_values)`, as written: an
      empty curve raises in `min`; otherwise the result lies on the line through two
      of the curve's points, or the call raises IndexError or ZeroDivisionError. */
  function ParameterInterpolation(phi: real, phis: seq<real>, params: seq<real>): (r: Result<real>)
    ensures phis == [] ==> r == Fail(ValueError(EmptyMinMessage))
    ensures r.Fail? ==> r.exc in {ValueError(EmptyMinMessage), IndexError, ZeroDivisionError}
    ensures r.Ok? ==> OnLineOfPoints(phi, phis, params, r.value)
  {
    if phis == [] then Fail(ValueError(EmptyMinMessage))
    else
      var ends :- Neighbours(phi, phis);
      LineThrough(phi, phis, params, ends)
  }

  /** At the least or the greatest flow coefficient one of the neighbour lists is
      empty, and the call raises IndexError. */
  lemma InterpolationAtExtremes(phi: real, phis: seq<real>, params: seq<real>)
    requires phis != [] && (phi == Reals.MinOf(phis) || phi == Reals.MaxOf(phis))
    ensures ParameterInterpolation(phi, phis, params) == Fail(IndexError)
  {
    if phi == Reals.MinOf(phis) {
      BelowNone(phis, phi);
    } else {
      AboveNone(phis, phi);
    }
  }

  lemma {:induction false} BelowNone(s: seq<real>, x: real)
    requires forall i :: 0 <= i < |s| ==> s[i] >= x
    ensures Below(s, x) == []
  {
    if s != [] {
      BelowNone(s[1..], x);
    }
  }

  lemma {:induction false} AboveNone(s: seq<real>, x: real)
    requires forall i :: 0 <= i < |s| ==> s[i] <= x
    ensures Above(s, x) == []
  {
    if s != [] {
      AboveNone(s[1..], x);
    }
  }

  /** Below the range the line runs through the first two test points. */
  lemma InterpolationBelow(phi: real, phis: seq<real>, params: seq<real>)
    requires |phis| >= 2 && phis[0] != phis[1] && |params| >= 2
    requires phi < Reals.MinOf(phis)
    ensures ParameterInterpolation(phi, phis, params).Ok?
    ensures ParameterInterpolation(phi, phis, params).value == Lerp(phi, phis[0], phis[1], params[0], params[1])
  {
    assert Index(phis, phis[1]) == 1 by {
      assert phis[..1] == [phis[0]];
    }
  }

  /** Above the range the line runs through the last two test points, when the
      flow coefficients are distinct. */
  lemma InterpolationAbove(phi: real, phis: seq<real>, params: seq<real>)
    requires |phis| >= 2 && |params| >= |phis| && Distinct(phis)
    requires phi > Reals.MaxOf(phis)
    ensures var n := |phis|;
      && ParameterInterpolation(phi, phis, params).Ok?
      && ParameterInterpolation(phi, phis, params).value == Lerp(phi, phis[n - 2], phis[n - 1], params[n - 2], params[n - 1])
  {
    IndexDistinct(phis, |phis| - 2);
    IndexDistinct(phis, |phis| - 1);
  }

  /** Strictly inside the range the line runs through a test point below and one
      above, so the result lies between their parameters. */
  lemma InterpolationInside(phi: real, phis: seq<real>, params: seq<real>)
    requires phis != [] && |params| >= |phis|
    requires Reals.MinOf(phis) < phi < Reals.MaxOf(phis)
    ensures var ends := Neighbours(phi, phis);
      && ends.Ok? && ends.value.0 < phi < ends.value.1
      && var y0 := params[Index(phis, ends.value.0)];
         var y1 := params[Index(phis, ends.value.1)];
         && ParameterInterpolation(phi, phis, params).Ok?
         && var r := ParameterInterpolation(phi, phis, params).value;
            (y0 <= y1 ==> y0 <= r <= y1) && (y1 <= y0 ==> y1 <= r <= y0)
  {
    NeighboursInside(phi, phis);
    var ends := Neighbours(phi, phis).value;
    InterpolationLine(phi, phis, params);
    var y0 := params[Index(phis, ends.0)];
    var y1 := params[Index(phis, ends.1)];
    assert LineThrough(phi, phis, params, ends) == Ok(Lerp(phi, ends.0, ends.1, y0, y1));
    LerpBetween(phi, ends.0, ends.1, y0, y1);
  }

  /** Strictly inside the range the written neighbours lie on either side. */
  lemma NeighboursInside(phi: real, phis: seq<real>)
    requires phis != [] && Reals.MinOf(phis) < phi < Reals.MaxOf(phis)
    ensures Neighbours(phi, phis).Ok?
    ensures Neighbours(phi, phis).value.0 < phi < Neighbours(phi, phis).value.1
  {
    InsideLists(phi, phis);
  }

  /** Once the neighbours are found, the written interpolation is the line through
      them. */
  lemma InterpolationLine(phi: real, phis: seq<real>, params: seq<real>)
    requires phis != [] && Neighbours(phi, phis).Ok?
    ensures ParameterInterpolation(phi, phis, params) == LineThrough(phi, phis, params, Neighbours(phi, phis).value)
  {
  }

  /** Strictly inside the range there are test points below, at most and above
      the flow coefficient. */
  lemma InsideLists(phi: real, phis: seq<real>)
    requires phis != [] && Reals.MinOf(phis) < phi < Reals.MaxOf(phis)
    ensures Below(phis, phi) != [] && AtMost(phis, phi) != [] && Above(phis, phi) != []
  {
    var i := Reals.MinOfAt(phis);
    var j := Reals.MaxOfAt(phis);
    BelowKeeps(phis, phi, i);
    AtMostKeeps(phis, phi, i);
    AboveKeeps(phis, phi, j);
  }

  predicate Distinct(s: seq<real>)
  {
    forall i, j :: 0 <= i < j < |s| ==> s[i] != s[j]
  }

  lemma IndexDistinct(s: seq<real>, k: nat)
    requires Distinct(s) && k < |s|
    ensures Index(s, s[k]) == k
  {

  }

  /** At a test point's own flow coefficient the written interpolation skips that
      point: with test points at 1, 2 and 3 carrying 0, 1 and 0 it gives 0 at 2,
      not 1. */
  lemma InterpolationSkipsPoint()
    ensures ParameterInterpolation(2.0, [1.0, 2.0, 3.0], [0.0, 1.0, 0.0]).Ok?
    ensures ParameterInterpolation(2.0, [1.0, 2.0, 3.0], [0.0, 1.0, 0.0]).value == 0.0
  {
    var phis := [1.0, 2.0, 3.0];
    SkipsNeighbours();
    InterpolationLine(2.0, phis, [0.0, 1.0, 0.0]);
    assert Index(phis, 1.0) == 0 && Index(phis, 3.0) == 2;
  }

  lemma SkipsNeighbours()
    ensures Neighbours(2.0, [1.0, 2.0, 3.0]) == Ok((1.0, 3.0))
  {
    var phis := [1.0, 2.0, 3.0];
    assert Reals.MinOf(phis) == 1.0 && Reals.MaxOf(phis) == 3.0 by {
      assert phis[1..] == [2.0, 3.0] && phis[1..][1..] == [3.0];
    }
    assert Below(phis, 2.0) == [1.0];
    assert Above(phis, 2.0) == [3.0];
  }

  /** The neighbours with the end points included: the first two at or below the
      least value, the last two at or above the greatest, and otherwise the last
      value at or below and the first value above. */
  function NeighboursCorrected(phi: real, phis: seq<real>): (r: Result<(real, real)>)
    requires phis != []
    ensures r.Ok? ==> r.value.0 in phis && r.value.1 in phis
  {
    if phi <= Reals.MinOf(phis) then
      if |phis| < 2 then Fail(IndexError) else Ok((phis[0], phis[1]))
    else if phi >= Reals.MaxOf(phis) then
      if |phis| < 2 then Fail(IndexError) else Ok((phis[|phis| - 2], phis[|phis| - 1]))
    else
      var below := AtMost(phis, phi);
      var above := Above(phis, phi);
      if below == [] || above == [] then Fail(IndexError)
      else
        AtMostIn(phis, phi, |below| - 1);
        AboveIn(phis, phi, 0);
        Ok((below[|below| - 1], above[0]))
  }

  /** `[phi_ for phi_ in phi_values if (phi_ - phi) <= 0]`. */
  function AtMost(phis: seq<real>, phi: real): (r: seq<real>)
    ensures forall i :: 0 <= i < |r| ==> r[i] <= phi
  {
    if phis == [] then []
    else (if phis[0] - phi <= 0.0 then [phis[0]] else []) + AtMost(phis[1..], phi)
  }

  lemma {:induction false} AtMostKeeps(phis: seq<real>, phi: real, i: nat)
    requires i < |phis| && phis[i] <= phi
    ensures AtMost(phis, phi) != []
  {
    if i > 0 && phis[0] > phi {
      AtMostKeeps(phis[1..], phi, i - 1);
    }
  }

  /** The interpolation with the end points included. */
  function ParameterInterpolationCorrected(phi: real, phis: seq<real>, params: seq<real>): Result<real>
  {
    if phis == [] then Fail(ValueError(EmptyMinMessage))
    else
      var ends :- NeighboursCorrected(phi, phis);
      LineThrough(phi, phis, params, ends)
  }

  predicate Ascending(s: seq<real>)
  {
    forall i, j :: 0 <= i < j < |s| ==> s[i] < s[j]
  }

  lemma {:induction false} AboveAscending(s: seq<real>, k: nat)
    requires Ascending(s) && k < |s|
    ensures Above(s, s[k]) == s[k + 1..]
  {
    if k == 0 {
      AboveAll(s[1..], s[0]);
    } else {
      AboveAscending(s[1..], k - 1);
    }
  }

  lemma {:induction false} AboveAll(s: seq<real>, x: real)
    requires forall i :: 0 <= i < |s| ==> s[i] > x
    ensures Above(s, x) == s
  {
    if s != [] {
      AboveAll(s[1..], x);
    }
  }

  lemma {:induction false} AtMostAscending(s: seq<real>, k: nat)
    requires Ascending(s) && k < |s|
    ensures AtMost(s, s[k]) == s[..k + 1]
  {
    if k == 0 {
      AtMostNone(s[1..], s[0]);
      assert s[..1] == [s[0]];
    } else {
      AtMostAscending(s[1..], k - 1);
      assert s[..k + 1] == [s[0]] + s[1..][..k];
    }
  }

  lemma {:induction false} AtMostNone(s: seq<real>, x: real)
    requires forall i :: 0 <= i < |s| ==> s[i] > x
    ensures AtMost(s, x) == []
  {
    if s != [] {
      AtMostNone(s[1..], x);
    }
  }

  /** The least and the greatest of ascending values are the first and the last. */
  lemma AscendingExtremes(phis: seq<real>)
    requires Ascending(phis) && phis != []
    ensures Reals.MinOf(phis) == phis[0] && Reals.MaxOf(phis) == phis[|phis| - 1]
  {
    var n := |phis|;
    var i := Reals.MinOfAt(phis);
    var j := Reals.MaxOfAt(phis);
    assert Reals.MinOf(phis) <= phis[0] && phis[n - 1] <= Reals.MaxOf(phis);
    AscendingBounds(phis, i);
    AscendingBounds(phis, j);
  }

  lemma AscendingBounds(s: seq<real>, i: nat)
    requires Ascending(s) && i < |s|
    ensures s[0] <= s[i] <= s[|s| - 1]
  {
  }

  lemma AscendingDistinct(s: seq<real>)
    requires Ascending(s)
    ensures Distinct(s)
  {
  }

  /** Through two distinct test points the line runs through each of them. */
  lemma LineThroughAt(phis: seq<real>, params: seq<real>, i: nat, j: nat)
    requires Distinct(phis) && |params| >= |phis| && i < j < |phis|
    ensures LineThrough(phis[i], phis, params, (phis[i], phis[j])) == Ok(params[i])
    ensures LineThrough(phis[j], phis, params, (phis[i], phis[j])) == Ok(params[j])
  {
    IndexDistinct(phis, i);
    IndexDistinct(phis, j);
    LerpEnds(phis[i], phis[j], params[i], params[j]);
  }

  /** A line through two distinct test points that have parameters is drawn at
      every flow coefficient. */
  lemma LineThroughOk(phi: real, phis: seq<real>, params: seq<real>, i: nat, j: nat)
    requires Distinct(phis) && |params| >= |phis| && i < j < |phis|
    ensures LineThrough(phi, phis, params, (phis[i], phis[j])).Ok?
  {
  }

  /** At or below the least flow coefficient the corrected interpolation uses the
      first two test points. */
  lemma CorrectedLow(phi: real, phis: seq<real>, params: seq<real>)
    requires |phis| >= 2 && phi <= Reals.MinOf(phis)
    ensures ParameterInterpolationCorrected(phi, phis, params) == LineThrough(phi, phis, params, (phis[0], phis[1]))
  {
  }

  /** At or above the greatest flow coefficient the corrected interpolation uses
      the last two test points. */
  lemma CorrectedHigh(phi: real, phis: seq<real>, params: seq<real>)
    requires |phis| >= 2 && Reals.MinOf(phis) < phi && Reals.MaxOf(phis) <= phi
    ensures var n := |phis|;
      ParameterInterpolationCorrected(phi, phis, params) == LineThrough(phi, phis, params, (phis[n - 2], phis[n - 1]))
  {
  }

  /** Strictly inside the range the corrected interpolation draws its line between
      the last test point at or below and the first above, which differ. */
  lemma CorrectedInside(phi: real, phis: seq<real>, params: seq<real>)
    requires phis != [] && |params| >= |phis|
    requires Reals.MinOf(phis) < phi < Reals.MaxOf(phis)
    ensures ParameterInterpolationCorrected(phi, phis, params).Ok?
  {
    NeighboursCorrectedInside(phi, phis);
    CorrectedLine(phi, phis, params);
  }

  /** Strictly inside the range the corrected neighbours are a test point at or
      below and one above. */
  lemma NeighboursCorrectedInside(phi: real, phis: seq<real>)
    requires phis != [] && Reals.MinOf(phis) < phi < Reals.MaxOf(phis)
    ensures NeighboursCorrected(phi, phis).Ok?
    ensures NeighboursCorrected(phi, phis).value.0 <= phi < NeighboursCorrected(phi, phis).value.1
  {
    InsideLists(phi, phis);
  }

  /** Once the corrected neighbours are found, the corrected interpolation is the
      line through them. */
  lemma CorrectedLine(phi: real, phis: seq<real>, params: seq<real>)
    requires phis != [] && NeighboursCorrected(phi, phis).Ok?
    ensures ParameterInterpolationCorrected(phi, phis, params)
         == LineThrough(phi, phis, params, NeighboursCorrected(phi, phis).value)
  {
  }

  /** Away from every test point the corrected neighbours are the written ones. */
  lemma NeighboursAgree(phi: real, phis: seq<real>)
    requires phis != [] && phi !in phis
    ensures NeighboursCorrected(phi, phis) == Neighbours(phi, phis)
  {
    assert phi != Reals.MinOf(phis) by {
      var i := Reals.MinOfAt(phis);
    }
    assert phi != Reals.MaxOf(phis) by {
      var j := Reals.MaxOfAt(phis);
    }
    AtMostBelow(phis, phi);
  }

  /** Away from every test point the corrected interpolation is the written one:
      the two differ only at the test points themselves. */
  lemma InterpolationAgrees(phi: real, phis: seq<real>, params: seq<real>)
    requires phi !in phis
    ensures ParameterInterpolationCorrected(phi, phis, params) == ParameterInterpolation(phi, phis, params)
  {
    if phis != [] {
      NeighboursAgree(phi, phis);
    }
  }

  /** With strictly ascending flow coefficients, at least two of them and a
      parameter for each, the corrected interpolation never raises and passes
      through every test point. */
  lemma InterpolationThroughPoints(phis: seq<real>, params: seq<real>, k: nat)
    requires Ascending(phis) && |phis| >= 2 && |params| >= |phis| && k < |phis|
    ensures ParameterInterpolationCorrected(phis[k], phis, params) == Ok(params[k])
  {
    var n := |phis|;
    AscendingExtremes(phis);
    AscendingDistinct(phis);
    if k == 0 {
      CorrectedLow(phis[0], phis, params);
      LineThroughAt(phis, params, 0, 1);
    } else if k == n - 1 {
      assert phis[0] < phis[n - 1] by {
        AscendingBounds(phis, 0);
      }
      ThroughLast(phis, params);
    } else {
      NeighboursAtPoint(phis, k);
      ThroughNeighbours(phis, params, k);
    }
  }

  lemma ThroughLast(phis: seq<real>, params: seq<real>)
    requires Distinct(phis) && |phis| >= 2 && |params| >= |phis|
    requires Reals.MinOf(phis) < phis[|phis| - 1] == Reals.MaxOf(phis)
    ensures ParameterInterpolationCorrected(phis[|phis| - 1], phis, params) == Ok(params[|phis| - 1])
  {
    var n := |phis|;
    var last, ends := phis[n - 1], (phis[n - 2], phis[n - 1]);
    assert ParameterInterpolationCorrected(last, phis, params) == LineThrough(last, phis, params, ends) by {
      CorrectedHigh(last, phis, params);
    }
    assert LineThrough(last, phis, params, ends) == Ok(params[n - 1]) by {
      LineThroughAt(phis, params, n - 2, n - 1);
    }
  }

  /** Where the corrected neighbours of a test point are the point itself and the
      next, the corrected interpolation gives the point's parameter. */
  lemma ThroughNeighbours(phis: seq<real>, params: seq<real>, k: nat)
    requires Distinct(phis) && |params| >= |phis| && k < |phis| - 1
    requires NeighboursCorrected(phis[k], phis) == Ok((phis[k], phis[k + 1]))
    ensures ParameterInterpolationCorrected(phis[k], phis, params) == Ok(params[k])
  {
    CorrectedLine(phis[k], phis, params);
    LineThroughAt(phis, params, k, k + 1);
  }

  /** Inside the range the corrected neighbours of a test point are the point
      itself and the next one. */
  lemma NeighboursAtPoint(phis: seq<real>, k: nat)
    requires Ascending(phis) && 0 < k < |phis| - 1
    requires Reals.MinOf(phis) == phis[0] && Reals.MaxOf(phis) == phis[|phis| - 1]
    ensures NeighboursCorrected(phis[k], phis) == Ok((phis[k], phis[k + 1]))
  {
    AscendingBounds(phis, k);
    AtMostAscending(phis, k);
    AboveAscending(phis, k);
  }

  /** With strictly ascending flow coefficients the corrected interpolation
      answers for every flow coefficient. */
  lemma InterpolationCorrectedTotal(phi: real, phis: seq<real>, params: seq<real>)
    requires Ascending(phis) && |phis| >= 2 && |params| >= |phis|
    ensures ParameterInterpolationCorrected(phi, phis, params).Ok?
  {
    var n := |phis|;
    AscendingExtremes(phis);
    AscendingDistinct(phis);
    if phi <= phis[0] {
      CorrectedLow(phi, phis, params);
      LineThroughOk(phi, phis, params, 0, 1);
    } else if phi >= phis[n - 1] {
      CorrectedHigh(phi, phis, params);
      LineThroughOk(phi, phis, params, n - 2, n - 1);
    } else {
      CorrectedInside(phi, phis, params);
    }
  }

  /** Away from every test point, at most and strictly below select the same. */
  lemma {:induction false} AtMostBelow(phis: seq<real>, phi: real)
    requires phi !in phis
    ensures AtMost(phis, phi) == Below(phis, phi)
  {
    if phis != [] {
      AtMostBelow(phis[1..], phi);
    }
  }

  // ---------------------------------------------------------------------------
  // Mixing temperature and bearing losses

  /** The temperature of the mixed rotor suction stream, `(ms1f·Ts1f + mend·Tend +
      0.95·mseal·Tseal) / (ms1f + mend + 0.95·mseal)`. */
  function MixedTemperature(ms1f: real, ts1f: real, mend: real, tend: real, mseal: real, tseal: real): (r: Result<real>)
    ensures r.Fail? <==> ms1f + mend + 0.95 * mseal == 0.0
  {
    var w := ms1f + mend + 0.95 * mseal;
    if w == 0.0 then Fail(ZeroDivisionError)
    else Ok((ms1f * ts1f + mend * tend + 0.95 * mseal * tseal) / w)
  }

  /** Streams at one temperature mix to that temperature, and streams flowing
      inwards mix to a temperature between their coldest and hottest. */
  lemma MixedBetween(ms1f: real, ts1f: real, mend: real, tend: real, mseal: real, tseal: real, lo: real, hi: real)
    requires ms1f >= 0.0 && mend >= 0.0 && mseal >= 0.0 && ms1f + mend + mseal > 0.0
    requires lo <= ts1f <= hi && lo <= tend <= hi && lo <= tseal <= hi
    ensures MixedTemperature(ms1f, ts1f, mend, tend, mseal, tseal).Ok?
    ensures lo <= MixedTemperature(ms1f, ts1f, mend, tend, mseal, tseal).value <= hi
  {
    var w := ms1f + mend + 0.95 * mseal;
    var s := ms1f * ts1f + mend * tend + 0.95 * mseal * tseal;
    assert w > 0.0;
    Reals.MulNonneg(ms1f, ts1f - lo);
    Reals.MulNonneg(mend, tend - lo);
    Reals.MulNonneg(0.95 * mseal, tseal - lo);
    Reals.MulNonneg(ms1f, hi - ts1f);
    Reals.MulNonneg(mend, hi - tend);
    Reals.MulNonneg(0.95 * mseal, hi - tseal);
    assert s - w * lo == ms1f * (ts1f - lo) + mend * (tend - lo) + 0.95 * mseal * (tseal - lo);
    assert w * hi - s == ms1f * (hi - ts1f) + mend * (hi - tend) + 0.95 * mseal * (hi - tseal);
    DivBetween(s, w, lo, hi);
  }

  /** The lubricating oil readings of a test point. */
  datatype Oil = Oil(
    densityDe: real, densityNde: real,
    flowJournalDe: real, flowJournalNde: real, flowThrustNde: real,
    specificHeatDe: real, specificHeatNde: real,
    inlet: real, outletDe: real, outletNde: real)

  /** The bearing losses: 0 when they are not counted, otherwise the heat the oil
      carries out of the drive-end journal bearing, the non-drive-end journal
      bearing and the thrust bearing. */
  function BearingLosses(counted: bool, o: Oil): real
  {
    if !counted then 0.0
    else
      o.densityDe * o.flowJournalDe * o.specificHeatDe * (o.outletDe - o.inlet)
      + o.densityNde * o.flowJournalNde * o.specificHeatNde * (o.outletNde - o.inlet)
      + o.densityNde * o.flowThrustNde * o.specificHeatNde * (o.outletNde - o.inlet)
  }

  /** Oil that leaves no warmer than it came gives no losses, and oil that warms
      gives non-negative losses. */
  lemma BearingLossesSign(counted: bool, o: Oil)
    requires o.densityDe >= 0.0 && o.densityNde >= 0.0
    requires o.flowJournalDe >= 0.0 && o.flowJournalNde >= 0.0 && o.flowThrustNde >= 0.0
    requires o.specificHeatDe >= 0.0 && o.specificHeatNde >= 0.0
    ensures o.outletDe == o.inlet && o.outletNde == o.inlet ==> BearingLosses(counted, o) == 0.0
    ensures o.outletDe >= o.inlet && o.outletNde >= o.inlet ==> BearingLosses(counted, o) >= 0.0
  {
    if counted && o.outletDe >= o.inlet && o.outletNde >= o.inlet {
      var a := o.densityDe * o.flowJournalDe * o.specificHeatDe;
      var b := o.densityNde * o.flowJournalNde * o.specificHeatNde;
      var c := o.densityNde * o.flowThrustNde * o.specificHeatNde;
      assert a >= 0.0 && b >= 0.0 && c >= 0.0;
      assert a * (o.outletDe - o.inlet) >= 0.0;
      assert b * (o.outletNde - o.inlet) >= 0.0;
      assert c * (o.outletNde - o.inlet) >= 0.0;
    }
  }

  // ---------------------------------------------------------------------------
  // Straight-through compressor: rotor flows

  /** A test point of a straight-through compressor: its suction flow and
      temperature, the optional balance-line and seal-gas flows and seal-gas
      temperature, the temperature behind the end seal, and the seal's states. */
  datatype StraightPoint = StraightPoint(
    flowM: real, sucT: real, balance: Option<real>, sealGas: Option<real>,
    sealT: Option<real>, endT: real, disch: Upstream, sucP: real)

  /** The rotor conditions of a straight-through test point. */
  datatype StraightRotor = StraightRotor(mend: real, ms1r: real, ts1r: real, kEnd: real)

  function OrZero(x: Option<real>): real
  {
    if x.Some? then x.value else 0.0
  }

  /** The end-seal flow and rotor suction flow, missing flows counting as 0. */
  function StraightFlows(ms1f: real, mbal: Option<real>, mseal: Option<real>): (r: (real, real))
    ensures r.1 - ms1f + 0.95 * OrZero(mseal) / 2.0 == OrZero(mbal)
    ensures mbal.None? && mseal.None? ==> r.1 == ms1f
  {
    var mend := OrZero(mbal) - (0.95 * OrZero(mseal)) / 2.0;
    (mend, ms1f + mend)
  }

  /** One pass of the straight-through loop: flows, mixed suction temperature and
      the end-seal constant (the discharge upstream, the suction downstream). */
  function StraightRotorOf(p: StraightPoint, sqrt: real -> real): (r: Result<StraightRotor>)
  {
    var (mend, ms1r) := StraightFlows(p.flowM, p.balance, p.sealGas);
    var ts1r :- MixedTemperature(p.flowM, p.sucT, mend, p.endT, OrZero(p.sealGas), OrZero(p.sealT));
    var k :- KSeal(mend, p.disch, p.sucP, sqrt);
    Ok(StraightRotor(mend, ms1r, ts1r, k))
  }

  /** The end-seal flow recovered from a straight-through seal constant is the flow
      it was measured from. */
  lemma StraightSealRecovered(p: StraightPoint, sqrt: real -> real)
    requires SealFlowing(p.disch, p.sucP, sqrt)
    requires StraightRotorOf(p, sqrt).Ok?
    ensures FlowMSeal(StraightRotorOf(p, sqrt).value.kEnd, p.disch, p.sucP, sqrt).Ok?
    ensures FlowMSeal(StraightRotorOf(p, sqrt).value.kEnd, p.disch, p.sucP, sqrt).value == StraightRotorOf(p, sqrt).value.mend
  {
    SealRoundTrip(StraightFlows(p.flowM, p.balance, p.sealGas).0, p.disch, p.sucP, sqrt);
  }

  /** The straight-through loop over the test points, appending one seal constant
      per point. */
  method StraightThroughRotor(points: seq<StraightPoint>, sqrt: real -> real) returns (r: Result<seq<StraightRotor>>)
    ensures r == MapAll(points, p => StraightRotorOf(p, sqrt))
  {
    var rotor: seq<StraightRotor> := [];
    for i := 0 to |points|
      invariant MapAll(points[..i], p => StraightRotorOf(p, sqrt)) == Ok(rotor)
    {
      var one := StraightRotorOf(points[i], sqrt);
      if one.Fail? {
        MapAllFailFrom(points, p => StraightRotorOf(p, sqrt), i);
        return Fail(one.exc);
      }
      MapAllSnoc(points, p => StraightRotorOf(p, sqrt), i, rotor);
      rotor := rotor + [one.value];
    }
    assert points[..|points|] == points;
    r := Ok(rotor);
  }

  // ---------------------------------------------------------------------------
  // Back-to-back compressor: leakage mass balances of the first section

  /** The flows around the first section: end seal, balance line, seal gas,
      division wall, rotor suction and section discharge. */
  datatype Balance = Balance(mend: real, mbal: real, mseal: real, mdiv: real, ms1r: real, md1f: real)

  /** The mass balance every first-section point satisfies: the balance line
      carries the end-seal flow plus half the counted seal gas, and the section
      discharge is the rotor flow plus the division-wall leakage. */
  predicate Balanced(b: Balance)
  {
    && b.mbal == b.mend + 0.95 * b.mseal / 2.0
    && b.md1f == b.mdiv + b.ms1r
    && b.ms1r == b.md1f - b.mdiv
  }

  /** The branch with a measured discharge flow: `mend = mbal − 0.95·mseal/2`,
      `mdiv = md1f − ms1f − mend − 0.95·mseal`, `ms1r = ms1f + mend + 0.95·mseal`. */
  function MeasuredBalance(md1f: real, ms1f: real, mbal: real, mseal: real): (b: Balance)
    ensures Balanced(b) && b.md1f == md1f && b.mbal == mbal && b.mseal == mseal
  {
    var mend := mbal - (0.95 * mseal) / 2.0;
    var mdiv := md1f - ms1f - mend - 0.95 * mseal;
    Balance(mend, mbal, mseal, mdiv, ms1f + mend + 0.95 * mseal, md1f)
  }

  /** The branch with estimated leakages: the end-seal and division-wall flows come
      from the seal constants. */
  function EstimatedBalance(mend: real, mdiv: real, ms1f: real, mseal: real): (b: Balance)
    ensures Balanced(b) && b.mend == mend && b.mdiv == mdiv && b.mseal == mseal
  {
    var mbal := mend + (0.95 * mseal) / 2.0;
    var ms1r := ms1f + mend + 0.95 * mseal;
    Balance(mend, mbal, mseal, mdiv, ms1r, mdiv + ms1f + mend + 0.95 * mseal)
  }

  /** The estimated branch inverts the measured one: fed the end-seal and
      division-wall flows the measured branch found, it gives back the measured
      balance-line and discharge flows. */
  lemma BalanceRoundTrip(md1f: real, ms1f: real, mbal: real, mseal: real)
    ensures var m := MeasuredBalance(md1f, ms1f, mbal, mseal);
      EstimatedBalance(m.mend, m.mdiv, ms1f, mseal) == m
  {
  }

  /** The discharge flow derived from the division-wall leakage, `ms1f + mdiv +
      mbal + 0.95·mseal/2`, is the section discharge of the balance. */
  lemma DerivedDischarge(md1f: real, ms1f: real, mbal: real, mseal: real)
    ensures var m := MeasuredBalance(md1f, ms1f, mbal, mseal);
      ms1f + m.mdiv + mbal + 0.95 * mseal / 2.0 == m.md1f
  {
  }

  /** The temperatures the rotor conditions are mixed from: flange suction, end-seal
      downstream, seal gas (None when the point was built with leakages and without
      it), flange discharge and division-wall downstream. */
  datatype Temperatures = Temperatures(suction: real, endSeal: real, sealGas: Option<real>, discharge: real, divWall: real)

  /** A first-section test point: suction flow, the discharge, balance-line,
      seal-gas and division-wall flows as given, the end-seal and division-wall
      seal states, and the temperatures around the section. */
  datatype SectionPoint = SectionPoint(
    flowM: real, dischargeFlow: Option<real>, balanceFlow: Option<real>, sealGas: Option<real>,
    divWallFlow: Option<real>,
    endUp: Upstream, endDown: real, divUp: Upstream, divDown: real, temps: Temperatures)

  /** The TypeError of an arithmetic operator applied to None, named by the
      operator. */
  const NoneProductMessage := "unsupported operand type(s) for *"
  const NoneDifferenceMessage := "unsupported operand type(s) for -"
  const NoneSumMessage := "unsupported operand type(s) for +"

  /** The point was given a division-wall flow that is not zero. */
  predicate DivWallGiven(p: SectionPoint)
  {
    p.divWallFlow.Some? && p.divWallFlow.value != 0.0
  }

  /** The loop before the passes: a point with a division-wall flow gets the
      first-section discharge flow `ms1f + mdiv + mbal + 0.95·mseal/2`, which
      raises TypeError when the balance-line or seal-gas flow is missing. The
      value goes to the public attribute; the passes read the discharge flow as
      given. */
  function DerivedDischargeFlow(p: SectionPoint): (r: Result<Option<real>>)
    ensures r.Fail? <==> DivWallGiven(p) && (p.balanceFlow.None? || p.sealGas.None?)
    ensures r.Fail? ==> r.exc == TypeError(if p.balanceFlow.None? then NoneSumMessage else NoneProductMessage)
    ensures r.Ok? ==> (r.value.Some? <==> DivWallGiven(p))
    ensures r.Ok? && r.value.Some? ==>
      MeasuredBalance(r.value.value, p.flowM, p.balanceFlow.value, p.sealGas.value).mdiv == p.divWallFlow.value
  {
    if !DivWallGiven(p) then Ok(None)
    else if p.balanceFlow.None? then Fail(TypeError(NoneSumMessage))
    else if p.sealGas.None? then Fail(TypeError(NoneProductMessage))
    else Ok(Some(p.flowM + p.divWallFlow.value + p.balanceFlow.value + 0.95 * p.sealGas.value / 2.0))
  }

  /** The loop before the passes, over every first-section point. */
  method DeriveDischargeFlows(points: seq<SectionPoint>) returns (r: Result<seq<Option<real>>>)
    ensures r == MapAll(points, p => DerivedDischargeFlow(p))
  {
    var flows: seq<Option<real>> := [];
    for i := 0 to |points|
      invariant MapAll(points[..i], p => DerivedDischargeFlow(p)) == Ok(flows)
    {
      var one := DerivedDischargeFlow(points[i]);
      if one.Fail? {
        MapAllFailFrom(points, p => DerivedDischargeFlow(p), i);
        return Fail(one.exc);
      }
      MapAllSnoc(points, p => DerivedDischargeFlow(p), i, flows);
      flows := flows + [one.value];
    }
    assert points[..|points|] == points;
    r := Ok(flows);
  }

  /** The rotor suction and discharge temperatures `Ts1r_t` and `Td1r_t`: the
      suction mixes the flange suction with the end-seal leak and the counted seal
      gas, the discharge removes the division-wall leak from the flange discharge.
      Both divide by the rotor flow; the rotor states built from them are CoolProp
      states and are not part of this model. */
  function RotorTemperatures(ms1f: real, b: Balance, t: Temperatures): (r: Result<(real, real)>)
    ensures t.sealGas.None? ==> r == Fail(TypeError(NoneProductMessage))
    ensures t.sealGas.Some? ==> (r.Fail? <==> ms1f + b.mend + 0.95 * b.mseal == 0.0 || b.md1f - b.mdiv == 0.0)
    ensures t.sealGas.Some? && r.Fail? ==> r.exc == ZeroDivisionError
    ensures r.Ok? ==> (b.md1f - b.mdiv) * r.value.1 == b.md1f * t.discharge - b.mdiv * t.divWall
  {
    if t.sealGas.None? then Fail(TypeError(NoneProductMessage)) else
    var ts1r :- MixedTemperature(ms1f, t.suction, b.mend, t.endSeal, b.mseal, t.sealGas.value);
    var w := b.md1f - b.mdiv;
    if w == 0.0 then Fail(ZeroDivisionError)
    else Ok((ts1r, (b.md1f * t.discharge - b.mdiv * t.divWall) / w))
  }

  /** On a balanced point with a seal-gas temperature, whose rotor flow is the
      suction flow plus the end-seal leak and the counted seal gas, the two
      divisions fail together, exactly when that rotor flow is zero. */
  lemma RotorNoFlow(ms1f: real, b: Balance, t: Temperatures)
    requires Balanced(b) && b.ms1r == ms1f + b.mend + 0.95 * b.mseal && t.sealGas.Some?
    ensures RotorTemperatures(ms1f, b, t).Fail? <==> b.ms1r == 0.0
    ensures RotorTemperatures(ms1f, b, t).Ok? ==>
      b.ms1r * RotorTemperatures(ms1f, b, t).value.0 == ms1f * t.suction + b.mend * t.endSeal + 0.95 * b.mseal * t.sealGas.value
  {
    var w := ms1f + b.mend + 0.95 * b.mseal;
    if w != 0.0 {
      var ts1r := (ms1f * t.suction + b.mend * t.endSeal + 0.95 * b.mseal * t.sealGas.value) / w;
      assert w * ts1r == ms1f * t.suction + b.mend * t.endSeal + 0.95 * b.mseal * t.sealGas.value;
    }
  }

  /** A point with a given, non-zero discharge flow is a measured one. */
  predicate Measured(p: SectionPoint)
  {
    p.dischargeFlow.Some? && p.dischargeFlow.value != 0.0
  }

  /** What the first pass finds at a measured point. */
  datatype Leak = Leak(balance: Balance, kEnd: real, kDiv: real)

  /** The first pass at one point: nothing for an estimated point; for a measured
      one the balance and both seal constants, after the rotor temperatures. A
      missing seal-gas flow fails at `0.95 * mseal_t`, a missing balance-line flow
      at the subtraction that follows. */
  function MeasuredLeak(p: SectionPoint, sqrt: real -> real): (r: Result<Option<Leak>>)
    ensures !Measured(p) ==> r == Ok(None)
    ensures Measured(p) && p.sealGas.None? ==> r == Fail(TypeError(NoneProductMessage))
    ensures Measured(p) && p.sealGas.Some? && p.balanceFlow.None? ==> r == Fail(TypeError(NoneDifferenceMessage))
    ensures r.Ok? && r.value.Some? ==>
      var leak := r.value.value;
      && Measured(p) && p.balanceFlow.Some? && p.sealGas.Some? && p.temps.sealGas.Some?
      && leak.balance == MeasuredBalance(p.dischargeFlow.value, p.flowM, p.balanceFlow.value, p.sealGas.value)
      && KSeal(leak.balance.mend, p.endUp, p.endDown, sqrt) == Ok(leak.kEnd)
      && KSeal(leak.balance.mdiv, p.divUp, p.divDown, sqrt) == Ok(leak.kDiv)
      && Balanced(leak.balance) && leak.balance.ms1r != 0.0
  {
    if !Measured(p) then Ok(None)
    else if p.sealGas.None? then Fail(TypeError(NoneProductMessage))
    else if p.balanceFlow.None? then Fail(TypeError(NoneDifferenceMessage))
    else
      var b := MeasuredBalance(p.dischargeFlow.value, p.flowM, p.balanceFlow.value, p.sealGas.value);
      var kEnd :- KSeal(b.mend, p.endUp, p.endDown, sqrt);
      var kDiv :- KSeal(b.mdiv, p.divUp, p.divDown, sqrt);
      var rotor :- RotorTemperatures(p.flowM, b, p.temps);
      Ok(Some(Leak(b, kEnd, kDiv)))
  }

  /** A measured point whose seal constants exist but whose rotor flow is zero
      raises ZeroDivisionError in the rotor temperatures. */
  lemma MeasuredNoRotorFlow(p: SectionPoint, sqrt: real -> real)
    requires Measured(p) && p.balanceFlow.Some? && p.sealGas.Some? && p.temps.sealGas.Some?
    requires var b := MeasuredBalance(p.dischargeFlow.value, p.flowM, p.balanceFlow.value, p.sealGas.value);
      && KSeal(b.mend, p.endUp, p.endDown, sqrt).Ok? && KSeal(b.mdiv, p.divUp, p.divDown, sqrt).Ok?
      && b.ms1r == 0.0
    ensures MeasuredLeak(p, sqrt) == Fail(ZeroDivisionError)
  {
    var b := MeasuredBalance(p.dischargeFlow.value, p.flowM, p.balanceFlow.value, p.sealGas.value);
    RotorNoFlow(p.flowM, b, p.temps);
  }

  /** The second pass at one estimated point, with the mean seal constants, up to
      the rotor temperatures. A missing seal-gas flow counts as 0; a missing
      seal-gas temperature still fails, at `0.95 * mseal_t * Tseal_t`. */
  function EstimatedLeak(p: SectionPoint, kEnd: real, kDiv: real, sqrt: real -> real): (r: Result<Balance>)
    ensures r.Ok? ==>
      && FlowMSeal(kEnd, p.endUp, p.endDown, sqrt).Ok? && FlowMSeal(kDiv, p.divUp, p.divDown, sqrt).Ok?
      && r.value == EstimatedBalance(FlowMSeal(kEnd, p.endUp, p.endDown, sqrt).value,
                                     FlowMSeal(kDiv, p.divUp, p.divDown, sqrt).value, p.flowM, OrZero(p.sealGas))
      && Balanced(r.value) && r.value.ms1r != 0.0 && p.temps.sealGas.Some?
    ensures (&& FlowMSeal(kEnd, p.endUp, p.endDown, sqrt).Ok? && FlowMSeal(kDiv, p.divUp, p.divDown, sqrt).Ok?
             && p.temps.sealGas.None?) ==> r == Fail(TypeError(NoneProductMessage))
  {
    var mend :- FlowMSeal(kEnd, p.endUp, p.endDown, sqrt);
    var mdiv :- FlowMSeal(kDiv, p.divUp, p.divDown, sqrt);
    var b := EstimatedBalance(mend, mdiv, p.flowM, OrZero(p.sealGas));
    var rotor :- RotorTemperatures(p.flowM, b, p.temps);
    Ok(b)
  }

  /** A point's seal constant: its own when it was measured, `fallback` otherwise. */
  function ConstantOf(leak: Option<Leak>, div: bool, fallback: real): real
  {
    if leak.None? then fallback else if div then leak.value.kDiv else leak.value.kEnd
  }

  /** The constants of all points: after the first pass with fallback 0, after the
      second with the mean. */
  function Filled(leaks: seq<Option<Leak>>, div: bool, fallback: real): (ks: seq<real>)
    ensures |ks| == |leaks|
    ensures forall i :: 0 <= i < |leaks| ==> ks[i] == ConstantOf(leaks[i], div, fallback)
  {
    seq(|leaks|, i requires 0 <= i < |leaks| => ConstantOf(leaks[i], div, fallback))
  }

  /** The balance of point `i` in the second pass. */
  function SecondPass(p: SectionPoint, leak: Option<Leak>, kEnd: real, kDiv: real, sqrt: real -> real): Result<Balance>
  {
    if leak.Some? then Ok(leak.value.balance) else EstimatedLeak(p, kEnd, kDiv, sqrt)
  }

  /** The second pass over the first `n` points. */
  function Balances(points: seq<SectionPoint>, leaks: seq<Option<Leak>>, kEnd: real, kDiv: real, sqrt: real -> real, n: nat): Result<seq<Balance>>
    requires n <= |points| == |leaks|
  {
    if n == 0 then Ok([])
    else
      var init :- Balances(points, leaks, kEnd, kDiv, sqrt, n - 1);
      var b :- SecondPass(points[n - 1], leaks[n - 1], kEnd, kDiv, sqrt);
      Ok(init + [b])
  }

  lemma {:induction false} BalancesFailFrom(points: seq<SectionPoint>, leaks: seq<Option<Leak>>, kEnd: real, kDiv: real, sqrt: real -> real, i: nat, n: nat)
    requires i < n <= |points| == |leaks|
    requires Balances(points, leaks, kEnd, kDiv, sqrt, i).Ok?
    requires SecondPass(points[i], leaks[i], kEnd, kDiv, sqrt).Fail?
    ensures Balances(points, leaks, kEnd, kDiv, sqrt, n) == Fail(SecondPass(points[i], leaks[i], kEnd, kDiv, sqrt).exc)
  {
    if n > i + 1 {
      BalancesFailFrom(points, leaks, kEnd, kDiv, sqrt, i, n - 1);
    }
  }

  /** Every balance of the second pass is balanced; measured points keep their
      measured balance. */
  lemma {:induction false} BalancesBalanced(points: seq<SectionPoint>, leaks: seq<Option<Leak>>, kEnd: real, kDiv: real, sqrt: real -> real, n: nat)
    requires n <= |points| == |leaks|
    requires forall i :: 0 <= i < |leaks| && leaks[i].Some? ==> Balanced(leaks[i].value.balance)
    requires Balances(points, leaks, kEnd, kDiv, sqrt, n).Ok?
    ensures |Balances(points, leaks, kEnd, kDiv, sqrt, n).value| == n
    ensures forall i :: 0 <= i < n ==> Balanced(Balances(points, leaks, kEnd, kDiv, sqrt, n).value[i])
    ensures forall i :: 0 <= i < n && leaks[i].Some? ==> Balances(points, leaks, kEnd, kDiv, sqrt, n).value[i] == leaks[i].value.balance
  {
    if n > 0 {
      BalancesBalanced(points, leaks, kEnd, kDiv, sqrt, n - 1);
    }
  }

  /** Both passes: the measured points' leaks, the seal constants with the means
      filled in for the estimated points, and every point's balance. */
  datatype Leakage = Leakage(kEndSeal: seq<real>, kDivWall: seq<real>, kEndMean: real, kDivMean: real, balances: seq<Balance>)

  /** The local the constructor stores as `self.k_end_seal_mean`, bound only inside
      the first loop. */
  const KEndMeanName := "k_end_seal_mean"

  /** The loop before the passes and both passes, or the first exception; with no
      first-section point the mean was never bound. */
  function LeakageOf(points: seq<SectionPoint>, sqrt: real -> real): (r: Result<Leakage>)
    ensures points == [] ==> r == Fail(NameError(KEndMeanName))
    ensures MapAll(points, p => DerivedDischargeFlow(p)).Fail? ==> r == Fail(MapAll(points, p => DerivedDischargeFlow(p)).exc)
  {
    if points == [] then Fail(NameError(KEndMeanName)) else
    var derived :- MapAll(points, p => DerivedDischargeFlow(p));
    var leaks :- MapAll(points, p => MeasuredLeak(p, sqrt));
    var kEnd := SealMean(Filled(leaks, false, 0.0));
    var kDiv := SealMean(Filled(leaks, true, 0.0));
    var balances :- Balances(points, leaks, kEnd, kDiv, sqrt, |points|);
    Ok(Leakage(Filled(leaks, false, kEnd), Filled(leaks, true, kDiv), kEnd, kDiv, balances))
  }

  /** What the two passes guarantee: one balance per point, each balanced; a
      measured point keeps its measured discharge and balance-line flows and its
      own seal constants; an estimated point takes the mean constants and leaks
      what they give. */
  lemma LeakageBalanced(points: seq<SectionPoint>, sqrt: real -> real)
    requires LeakageOf(points, sqrt).Ok?
    ensures var l := LeakageOf(points, sqrt).value;
      && |l.balances| == |points| && |l.kEndSeal| == |points| && |l.kDivWall| == |points|
      && forall i :: 0 <= i < |points| ==> LeakageAtPoint(points[i], l, i, sqrt)
  {
    LeakageLengths(points, sqrt);
    forall i | 0 <= i < |points|
      ensures LeakageAtPoint(points[i], LeakageOf(points, sqrt).value, i, sqrt)
    {
      LeakageAt(points, sqrt, i);
    }
  }

  lemma LeakageLengths(points: seq<SectionPoint>, sqrt: real -> real)
    requires LeakageOf(points, sqrt).Ok?
    ensures var l := LeakageOf(points, sqrt).value;
      |l.balances| == |points| && |l.kEndSeal| == |points| && |l.kDivWall| == |points|
  {
    LeakageParts(points, sqrt);
    var leaks := MapAll(points, p => MeasuredLeak(p, sqrt)).value;
    var l := LeakageOf(points, sqrt).value;
    BalancesLength(points, leaks, l.kEndMean, l.kDivMean, sqrt, |points|);
  }

  lemma {:induction false} BalancesLength(points: seq<SectionPoint>, leaks: seq<Option<Leak>>, kEnd: real, kDiv: real, sqrt: real -> real, n: nat)
    requires n <= |points| == |leaks|
    requires Balances(points, leaks, kEnd, kDiv, sqrt, n).Ok?
    ensures |Balances(points, leaks, kEnd, kDiv, sqrt, n).value| == n
  {
    if n > 0 {
      BalancesLength(points, leaks, kEnd, kDiv, sqrt, n - 1);
    }
  }

  /** At point `i` of the passes: its balance is balanced; a measured point keeps
      its measured discharge and balance-line flows and its own end-seal
      constant; an estimated point takes the mean constants and leaks what they
      give. */
  predicate LeakageAtPoint(p: SectionPoint, l: Leakage, i: nat, sqrt: real -> real)
    requires i < |l.balances| && i < |l.kEndSeal| && i < |l.kDivWall|
  {
    var b := l.balances[i];
    && Balanced(b) && b.ms1r != 0.0 && p.temps.sealGas.Some?
    && (DivWallGiven(p) ==> p.balanceFlow.Some? && p.sealGas.Some?)
    && (Measured(p) ==>
          && p.balanceFlow.Some? && p.sealGas.Some?
          && b == MeasuredBalance(p.dischargeFlow.value, p.flowM, p.balanceFlow.value, p.sealGas.value)
          && KSeal(b.mend, p.endUp, p.endDown, sqrt) == Ok(l.kEndSeal[i])
          && KSeal(b.mdiv, p.divUp, p.divDown, sqrt) == Ok(l.kDivWall[i]))
    && (!Measured(p) ==>
          && l.kEndSeal[i] == l.kEndMean && l.kDivWall[i] == l.kDivMean
          && FlowMSeal(l.kEndMean, p.endUp, p.endDown, sqrt) == Ok(b.mend)
          && FlowMSeal(l.kDivMean, p.divUp, p.divDown, sqrt) == Ok(b.mdiv)
          && b == EstimatedBalance(b.mend, b.mdiv, p.flowM, OrZero(p.sealGas)))
  }

  /** The parts `LeakageOf` is made of, when it succeeds. */
  lemma LeakageParts(points: seq<SectionPoint>, sqrt: real -> real)
    requires LeakageOf(points, sqrt).Ok?
    ensures MapAll(points, p => DerivedDischargeFlow(p)).Ok?
    ensures MapAll(points, p => MeasuredLeak(p, sqrt)).Ok?
    ensures var leaks := MapAll(points, p => MeasuredLeak(p, sqrt)).value;
      var l := LeakageOf(points, sqrt).value;
      && |leaks| == |points|
      && l.kEndMean == SealMean(Filled(leaks, false, 0.0))
      && l.kDivMean == SealMean(Filled(leaks, true, 0.0))
      && l.kEndSeal == Filled(leaks, false, l.kEndMean)
      && l.kDivWall == Filled(leaks, true, l.kDivMean)
      && Balances(points, leaks, l.kEndMean, l.kDivMean, sqrt, |points|) == Ok(l.balances)
  {
  }

  /** What the two passes give at one point. */
  lemma LeakageAt(points: seq<SectionPoint>, sqrt: real -> real, i: nat)
    requires LeakageOf(points, sqrt).Ok? && i < |points|
    ensures var l := LeakageOf(points, sqrt).value;
      && |l.balances| == |points| && |l.kEndSeal| == |points| && |l.kDivWall| == |points|
      && LeakageAtPoint(points[i], l, i, sqrt)
  {
    LeakageParts(points, sqrt);
    var leaks := MapAll(points, p => MeasuredLeak(p, sqrt)).value;
    var l := LeakageOf(points, sqrt).value;
    BalancesEntry(points, leaks, l.kEndMean, l.kDivMean, sqrt, |points|, i);
    assert MeasuredLeak(points[i], sqrt) == Ok(leaks[i]);
    assert DerivedDischargeFlow(points[i]).Ok?;
  }

  lemma {:induction false} BalancesEntry(points: seq<SectionPoint>, leaks: seq<Option<Leak>>, kEnd: real, kDiv: real, sqrt: real -> real, n: nat, i: nat)
    requires i < n <= |points| == |leaks|
    requires Balances(points, leaks, kEnd, kDiv, sqrt, n).Ok?
    ensures |Balances(points, leaks, kEnd, kDiv, sqrt, n).value| == n
    ensures SecondPass(points[i], leaks[i], kEnd, kDiv, sqrt) == Ok(Balances(points, leaks, kEnd, kDiv, sqrt, n).value[i])
  {
    if i < n - 1 {
      BalancesEntry(points, leaks, kEnd, kDiv, sqrt, n - 1, i);
    } else if n > 1 {
      BalancesEntry(points, leaks, kEnd, kDiv, sqrt, n - 1, 0);
    }
  }

  /** The seal-constant arrays of a back-to-back compressor, `k_end_seal` and
      `k_div_wall`, filled by the two passes over the first-section points. */
  class SealArrays {
    const kEndSeal: array<real>
    const kDivWall: array<real>

    /** `np.zeros(len(test_points_sec1))`, twice. */
    constructor (n: nat)
      ensures kEndSeal.Length == n && kDivWall.Length == n
      ensures fresh(kEndSeal) && fresh(kDivWall)
      ensures kEndSeal != kDivWall
      ensures kEndSeal[..] == Padded([], n) && kDivWall[..] == Padded([], n)
    {
      kEndSeal := new real[n](i => 0.0);
      kDivWall := new real[n](i => 0.0);
      new;
      assert kEndSeal[..] == Padded([], n);
    }

    /** Stores one point's two constants at position `i`. */
    method Store(i: nat, kEnd: real, kDiv: real)
      requires i < kEndSeal.Length && i < kDivWall.Length && kEndSeal != kDivWall
      modifies kEndSeal, kDivWall
      ensures kEndSeal[..] == old(kEndSeal[..])[i := kEnd]
      ensures kDivWall[..] == old(kDivWall[..])[i := kDiv]
    {
      kEndSeal[i] := kEnd;
      kDivWall[i] := kDiv;
    }

    /** The first loop: each measured point's balance and constants, stored at the
        point's position. */
    method MeasurePass(points: seq<SectionPoint>, sqrt: real -> real) returns (r: Result<seq<Option<Leak>>>)
      requires kEndSeal.Length == |points| && kDivWall.Length == |points| && kEndSeal != kDivWall
      requires kEndSeal[..] == Padded([], |points|) && kDivWall[..] == Padded([], |points|)
      modifies kEndSeal, kDivWall
      ensures r == MapAll(points, p => MeasuredLeak(p, sqrt))
      ensures r.Ok? ==> kEndSeal[..] == Filled(r.value, false, 0.0) && kDivWall[..] == Filled(r.value, true, 0.0)
    {
      var leaks: seq<Option<Leak>> := [];
      for i := 0 to |points|
        invariant MapAll(points[..i], p => MeasuredLeak(p, sqrt)) == Ok(leaks)
        invariant |leaks| == i
        invariant kEndSeal[..] == Padded(Filled(leaks, false, 0.0), |points|)
        invariant kDivWall[..] == Padded(Filled(leaks, true, 0.0), |points|)
      {
        var one := MeasuredLeak(points[i], sqrt);
        if one.Fail? {
          MapAllFailFrom(points, p => MeasuredLeak(p, sqrt), i);
          return Fail(one.exc);
        }
        MapAllSnoc(points, p => MeasuredLeak(p, sqrt), i, leaks);
        PaddedStep(leaks, one.value, false, |points|);
        PaddedStep(leaks, one.value, true, |points|);
        if one.value.Some? {
          Store(i, one.value.value.kEnd, one.value.value.kDiv);
        }
        leaks := leaks + [one.value];
      }
      assert points[..|points|] == points;
      assert Padded(Filled(leaks, false, 0.0), |points|) == Filled(leaks, false, 0.0);
      assert Padded(Filled(leaks, true, 0.0), |points|) == Filled(leaks, true, 0.0);
      r := Ok(leaks);
    }

    /** The second loop: estimated points take the mean constants and the flows
        they give. */
    method EstimatePass(points: seq<SectionPoint>, leaks: seq<Option<Leak>>, sqrt: real -> real) returns (r: Result<seq<Balance>>)
      requires kEndSeal.Length == |points| == |leaks| && kDivWall.Length == |points| && kEndSeal != kDivWall
      requires kEndSeal[..] == Filled(leaks, false, 0.0) && kDivWall[..] == Filled(leaks, true, 0.0)
      modifies kEndSeal, kDivWall
      ensures var kEnd := SealMean(Filled(leaks, false, 0.0));
        var kDiv := SealMean(Filled(leaks, true, 0.0));
        && r == Balances(points, leaks, kEnd, kDiv, sqrt, |points|)
        && (r.Ok? ==> kEndSeal[..] == Filled(leaks, false, kEnd) && kDivWall[..] == Filled(leaks, true, kDiv))
    {
      var kEnd := SealMean(kEndSeal[..]);
      var kDiv := SealMean(kDivWall[..]);
      RefilledEnds(leaks, false, kEnd);
      RefilledEnds(leaks, true, kDiv);
      var balances: seq<Balance> := [];
      for i := 0 to |points|
        invariant Balances(points, leaks, kEnd, kDiv, sqrt, i) == Ok(balances)
        invariant kEndSeal[..] == Refilled(leaks, false, kEnd, i)
        invariant kDivWall[..] == Refilled(leaks, true, kDiv, i)
      {
        var one := SecondPass(points[i], leaks[i], kEnd, kDiv, sqrt);
        if one.Fail? {
          BalancesFailFrom(points, leaks, kEnd, kDiv, sqrt, i, |points|);
          return Fail(one.exc);
        }
        RefilledStep(leaks, false, kEnd, i);
        RefilledStep(leaks, true, kDiv, i);
        if leaks[i].None? {
          Store(i, kEnd, kDiv);
        }
        balances := balances + [one.value];
      }
      r := Ok(balances);
    }
  }

  /** `ks` followed by zeros up to length `n`: the array during the first loop. */
  function Padded(ks: seq<real>, n: nat): (r: seq<real>)
    requires |ks| <= n
    ensures |r| == n && r[..|ks|] == ks
    ensures forall j :: |ks| <= j < n ==> r[j] == 0.0
  {
    ks + seq(n - |ks|, _ => 0.0)
  }

  /** One step of the first loop stores a measured point's constant and leaves
      the zero of an estimated one. */
  lemma PaddedStep(leaks: seq<Option<Leak>>, x: Option<Leak>, div: bool, n: nat)
    requires |leaks| < n
    ensures Padded(Filled(leaks + [x], div, 0.0), n)
      == if x.Some? then Padded(Filled(leaks, div, 0.0), n)[|leaks| := ConstantOf(x, div, 0.0)]
         else Padded(Filled(leaks, div, 0.0), n)
  {
    var a := Padded(Filled(leaks + [x], div, 0.0), n);
    var b := Padded(Filled(leaks, div, 0.0), n);
    var c := if x.Some? then b[|leaks| := ConstantOf(x, div, 0.0)] else b;
    forall j | 0 <= j < n ensures a[j] == c[j] {
      if j < |leaks| {
        assert a[j] == a[..|leaks| + 1][j] == ConstantOf((leaks + [x])[j], div, 0.0);
        assert b[j] == b[..|leaks|][j];
      } else if j == |leaks| {
        assert a[j] == a[..|leaks| + 1][j];
      }
    }
  }

  /** The array during the second loop: points before `i` with the mean filled in,
      the rest as the first loop left them. */
  function Refilled(leaks: seq<Option<Leak>>, div: bool, k: real, i: nat): (r: seq<real>)
    requires i <= |leaks|
    ensures |r| == |leaks|
  {
    seq(|leaks|, j requires 0 <= j < |leaks| => ConstantOf(leaks[j], div, if j < i then k else 0.0))
  }

  /** Before the second loop the array is the first loop's, after it every
      estimated point holds the mean. */
  lemma RefilledEnds(leaks: seq<Option<Leak>>, div: bool, k: real)
    ensures Refilled(leaks, div, k, 0) == Filled(leaks, div, 0.0)
    ensures Refilled(leaks, div, k, |leaks|) == Filled(leaks, div, k)
  {
  }

  /** One step of the second loop stores the mean at an estimated point. */
  lemma RefilledStep(leaks: seq<Option<Leak>>, div: bool, k: real, i: nat)
    requires i < |leaks|
    ensures Refilled(leaks, div, k, i + 1)
      == if leaks[i].None? then Refilled(leaks, div, k, i)[i := k] else Refilled(leaks, div, k, i)
  {
  }

  /** The two passes of the back-to-back constructor over the first-section test
      points. */
  method BackToBackLeakage(points: seq<SectionPoint>, sqrt: real -> real) returns (r: Result<Leakage>)
    ensures r == LeakageOf(points, sqrt)
  {
    if points == [] {
      return Fail(NameError(KEndMeanName));
    }
    var arrays := new SealArrays(|points|);
    var derived := DeriveDischargeFlows(points);
    if derived.Fail? {
      return Fail(derived.exc);
    }
    var leaks := arrays.MeasurePass(points, sqrt);
    if leaks.Fail? {
      return Fail(leaks.exc);
    }
    var balances := arrays.EstimatePass(points, leaks.value, sqrt);
    if balances.Fail? {
      return Fail(balances.exc);
    }
    var kEnd := SealMean(Filled(leaks.value, false, 0.0));
    var kDiv := SealMean(Filled(leaks.value, true, 0.0));
    r := Ok(Leakage(arrays.kEndSeal[..], arrays.kDivWall[..], kEnd, kDiv, balances.value));
  }
}
