/** `Impeller`: the points of a performance map grouped into one curve per speed,
    and the choice of the curves a query at another speed is interpolated from. */
module Impeller {
  import opened Wrappers
  import opened Sorting
  import Curve
  import Reals

  function Abs(x: real): real
  {
    if x < 0.0 then -x else x
  }

  predicate StrictlyAscending(a: seq<real>)
  {
    forall i, j :: 0 <= i < j < |a| ==> a[i] < a[j]
  }

  // ---------------------------------------------------------------------------
  // find_closest_speeds

  /** `np.argmin`: the first index of a least element. */
  function ArgMin(d: seq<real>): (i: nat)
    requires |d| > 0
    ensures i < |d|
    ensures forall j :: 0 <= j < |d| ==> d[i] <= d[j]
    ensures forall j :: 0 <= j < i ==> d[i] < d[j]
  {
    if |d| == 1 then 0
    else
      var n := |d| - 1;
      assert forall j :: 0 <= j < n ==> d[..n][j] == d[j];
      var k := ArgMin(d[..n]);
      if d[n] < d[k] then n else k
  }

  /** `np.abs(array - value)`. */
  function Distances(a: seq<real>, value: real): (d: seq<real>)
    ensures |d| == |a| && forall i :: 0 <= i < |a| ==> d[i] == Abs(a[i] - value)
  {
    seq(|a|, i requires 0 <= i < |a| => Abs(a[i] - value))
  }

  const ArgMinEmptyMessage := "attempt to get argmin of an empty sequence"

  /** `find_closest_speeds(array, value)`: the index of the closest speed and its
      neighbour on the side of `value`, clamped to the first and the last pair. */
  function FindClosestSpeeds(a: seq<real>, value: real): (r: Result<(int, int)>)
    ensures r.Fail? <==> a == []
    ensures r.Fail? ==> r.exc == ValueError(ArgMinEmptyMessage)
    ensures r.Ok? ==> r.value.1 == r.value.0 + 1
    ensures r.Ok? && |a| >= 2 ==> 0 <= r.value.0 && r.value.1 < |a|
  {
    if a == [] then Fail(ValueError(ArgMinEmptyMessage))
    else
      var idx := ArgMin(Distances(a, value));
      if idx == 0 then Ok((0, 1))
      else if idx == |a| - 1 then Ok((|a| - 2, |a| - 1))
      else if a[idx] - value > 0.0 then Ok((idx - 1, idx))
      else Ok((idx, idx + 1))
  }

  /** For strictly ascending speeds and a value between the first and the last, the
      pair found brackets the value. */
  lemma ClosestSpeedsBracket(a: seq<real>, value: real)
    requires |a| >= 2 && StrictlyAscending(a) && a[0] <= value <= a[|a| - 1]
    ensures var r := FindClosestSpeeds(a, value).value;
      a[r.0] <= value <= a[r.1]
  {
    var d := Distances(a, value);
    var idx := ArgMin(d);
    assert d[idx] <= d[0] && d[idx] <= d[|a| - 1];
    if 0 < idx < |a| - 1 {
      assert d[idx] <= d[idx - 1] && d[idx] <= d[idx + 1];
    } else if idx == 0 {
      assert d[0] <= d[1];
    } else {
      assert d[idx] <= d[idx - 1];
    }
  }

  /** At one of the stored speeds the pair starts or ends there. */
  lemma ClosestSpeedsAtStored(a: seq<real>, k: nat)
    requires |a| >= 2 && StrictlyAscending(a) && k < |a|
    ensures var r := FindClosestSpeeds(a, a[k]).value;
      (r.0 == k && k < |a| - 1) || (r.1 == k && k == |a| - 1)
  {
    var d := Distances(a, a[k]);
    var idx := ArgMin(d);
    assert d[k] == 0.0;
  }

  // ---------------------------------------------------------------------------
  // get_interpolated_values and system_to_interpolate

  /** `system_to_interpolate`: the residuals of the point at fraction `fac` of the
      segment from (flow0, val0) to (flow1, val1). */
  function Residuals(x0: real, x1: real, fac: real, flow0: real, val0: real, flow1: real, val1: real): (real, real)
    requires flow1 != flow0
  {
    (-x1 + val0 + (x0 - flow0) * (val1 - val0) / (flow1 - flow0),
     -fac * (flow1 - flow0) + x0 - flow0)
  }

  lemma ScaleCancels(fac: real, d: real, w: real)
    requires d != 0.0
    ensures (fac * d) * w / d == fac * w
  {
    calc {
      (fac * d) * w / d;
      (fac * w) * d / d;
      fac * w;
    }
  }

  /** The residuals vanish exactly at the point at fraction `fac` of the segment. */
  lemma ResidualsRoot(x0: real, x1: real, fac: real, flow0: real, val0: real, flow1: real, val1: real)
    requires flow1 != flow0
    ensures Residuals(x0, x1, fac, flow0, val0, flow1, val1) == (0.0, 0.0)
      <==> x0 == flow0 + fac * (flow1 - flow0) && x1 == val0 + fac * (val1 - val0)
  {
    if x0 == flow0 + fac * (flow1 - flow0) {
      assert x0 - flow0 == fac * (flow1 - flow0);
      ScaleCancels(fac, flow1 - flow0, val1 - val0);
      assert Residuals(x0, x1, fac, flow0, val0, flow1, val1).0 == -x1 + val0 + fac * (val1 - val0);
    }
  }

  /** The solver's start: the second point when `fac > 0.5`, else the first. */
  function StartPoint(fac: real, flow0: real, val0: real, flow1: real, val1: real): (real, real)
  {
    if fac > 0.5 then (flow1, val1) else (flow0, val0)
  }

  /** `get_interpolated_values`, with the solver returning the root it converges to. */
  function InterpolatedValues(fac: real, flow0: real, val0: real, flow1: real, val1: real): (r: (real, real))
    requires flow1 != flow0
    ensures Residuals(r.0, r.1, fac, flow0, val0, flow1, val1) == (0.0, 0.0)
  {
    ResidualsRoot(flow0 + fac * (flow1 - flow0), val0 + fac * (val1 - val0), fac, flow0, val0, flow1, val1);
    (flow0 + fac * (flow1 - flow0), val0 + fac * (val1 - val0))
  }

  /** The start is the end of the segment at least as near the root in flow. */
  lemma StartNearer(fac: real, flow0: real, val0: real, flow1: real, val1: real)
    requires flow1 != flow0 && 0.0 <= fac <= 1.0
    ensures var root := InterpolatedValues(fac, flow0, val0, flow1, val1).0;
      var start := StartPoint(fac, flow0, val0, flow1, val1).0;
      Abs(root - start) <= Abs(root - flow0) && Abs(root - start) <= Abs(root - flow1)
  {
    var d := flow1 - flow0;
    var root := InterpolatedValues(fac, flow0, val0, flow1, val1).0;
    assert root - flow0 == fac * d;
    assert root - flow1 == (fac - 1.0) * d;
    FractionDistances(fac, d);
  }

  lemma FractionDistances(fac: real, d: real)
    requires 0.0 <= fac <= 1.0
    ensures fac > 0.5 ==> Abs((fac - 1.0) * d) <= Abs(fac * d)
    ensures fac <= 0.5 ==> Abs(fac * d) <= Abs((fac - 1.0) * d)
  {
    var e := if d >= 0.0 then d else -d;
    Reals.MulNonneg(fac, e);
    Reals.MulNonneg(1.0 - fac, e);
    assert Abs(fac * d) == fac * e;
    assert Abs((fac - 1.0) * d) == (1.0 - fac) * e;
    if fac > 0.5 {
      Reals.MulNonneg(2.0 * fac - 1.0, e);
      assert fac * e - (1.0 - fac) * e == (2.0 * fac - 1.0) * e;
    } else {
      Reals.MulNonneg(1.0 - 2.0 * fac, e);
      assert (1.0 - fac) * e - fac * e == (1.0 - 2.0 * fac) * e;
    }
  }

  /** `calculate_power_losses`: losses scale with the speed ratio to the power 2.5;
      `pow` is the floating-point `**`. */
  function PowerLosses(ref: real, speedRef: real, speed: real, pow: (real, real) -> real): (r: Result<real>)
    ensures r.Fail? <==> speedRef == 0.0
    ensures r.Fail? ==> r.exc == ZeroDivisionError
  {
    if speedRef == 0.0 then Fail(ZeroDivisionError)
    else Ok(ref * pow(speed / speedRef, 2.5))
  }

  /** At the reference speed the losses are the reference losses. */
  lemma PowerLossesAtReference(ref: real, speedRef: real, pow: (real, real) -> real)
    requires speedRef != 0.0 && pow(1.0, 2.5) == 1.0
    ensures PowerLosses(ref, speedRef, speedRef, pow).Ok?
    ensures PowerLosses(ref, speedRef, speedRef, pow).value == ref
  {
    assert speedRef / speedRef == 1.0;
  }

  // ---------------------------------------------------------------------------
  // Construction

  /** A point as the impeller sees it: what its curve reads, and its mechanical
      power losses. */
  datatype ImpPoint = ImpPoint(cp: Curve.CurvePoint, powerLosses: real)

  datatype Impeller = Impeller(points: seq<ImpPoint>, curves: seq<Curve.Curve>)

  const EmptyMaxMessage := "max() arg is an empty sequence"

  predicate SpeedLe(p: ImpPoint, q: ImpPoint)
  {
    p.cp.speed <= q.cp.speed
  }

  lemma SpeedOrder()
    ensures TotalPreorder(SpeedLe)
  {
  }

  function MaxLosses(ps: seq<ImpPoint>): (m: real)
    requires ps != []
    ensures forall i :: 0 <= i < |ps| ==> ps[i].powerLosses <= m
    ensures exists i :: 0 <= i < |ps| && ps[i].powerLosses == m
  {
    if |ps| == 1 then ps[0].powerLosses
    else
      var rest := MaxLosses(ps[1..]);
      assert forall i :: 1 <= i < |ps| ==> ps[i] == ps[1..][i - 1];
      if ps[0].powerLosses >= rest then ps[0].powerLosses else rest
  }

  /** `{p.power_losses: p.speed for p in points}[losses]`: a later point overwrites
      an earlier one with equal losses, so the last such point gives the speed. */
  function LossesSpeed(ps: seq<ImpPoint>, losses: real): (r: Option<real>)
    ensures r.None? <==> forall i :: 0 <= i < |ps| ==> ps[i].powerLosses != losses
    ensures r.Some? ==> exists i :: 0 <= i < |ps| && ps[i].powerLosses == losses && ps[i].cp.speed == r.value
  {
    if ps == [] then None
    else
      var n := |ps| - 1;
      assert forall i :: 0 <= i < n ==> ps[..n][i] == ps[i];
      if ps[n].powerLosses == losses then Some(ps[n].cp.speed) else LossesSpeed(ps[..n], losses)
  }

  /** `itertools.groupby` on the speed: runs of consecutive points at one speed. */
  function GroupBySpeed(ps: seq<ImpPoint>): (gs: seq<seq<ImpPoint>>)
    ensures ps == [] <==> gs == []
    ensures gs != [] ==> gs[0] != [] && gs[0][0] == ps[0]
    ensures forall k :: 0 <= k < |gs| ==> gs[k] != []
  {
    if ps == [] then []
    else
      var rest := GroupBySpeed(ps[1..]);
      if rest != [] && rest[0][0].cp.speed == ps[0].cp.speed then [[ps[0]] + rest[0]] + rest[1..]
      else [[ps[0]]] + rest
  }

  function Flatten<T>(gs: seq<seq<T>>): seq<T>
  {
    if gs == [] then [] else gs[0] + Flatten(gs[1..])
  }

  /** A point with no losses gets the largest losses scaled to its speed, when the
      largest losses are positive. */
  function Adjusted(p: ImpPoint, maxLosses: real, maxSpeed: real, pow: (real, real) -> real): (r: Result<ImpPoint>)
    ensures r.Ok? ==> r.value.cp == p.cp
    ensures r.Ok? && (maxLosses <= 0.0 || p.powerLosses != 0.0) ==> r.value == p
  {
    if maxLosses > 0.0 && p.powerLosses == 0.0 then
      var losses :- PowerLosses(maxLosses, maxSpeed, p.cp.speed, pow);
      Ok(p.(powerLosses := losses))
    else Ok(p)
  }

  function CurvePoints(ps: seq<ImpPoint>): (r: seq<Curve.CurvePoint>)
    ensures |r| == |ps| && forall i :: 0 <= i < |ps| ==> r[i] == ps[i].cp
  {
    seq(|ps|, i requires 0 <= i < |ps| => ps[i].cp)
  }

  /** The curve of one group of points. */
  function GroupCurve(g: seq<ImpPoint>, maxLosses: real, maxSpeed: real, pow: (real, real) -> real): (r: Result<Curve.Curve>)
  {
    var adjusted :- MapAll(g, p => Adjusted(p, maxLosses, maxSpeed, pow));
    Curve.CurveOf(CurvePoints(adjusted))
  }

  /** `Impeller(points)`. */
  function ImpellerOf(points: seq<ImpPoint>, pow: (real, real) -> real): (r: Result<Impeller>)
    ensures r.Ok? ==> r.value.points == points
  {
    if points == [] then Fail(ValueError(EmptyMaxMessage))
    else
      var maxLosses := MaxLosses(points);
      var maxSpeed := LossesSpeed(points, maxLosses).value;
      var groups := GroupBySpeed(SortBy(points, SpeedLe));
      var curves :- MapAll(groups, g => GroupCurve(g, maxLosses, maxSpeed, pow));
      Ok(Impeller(points, curves))
  }

  /** `Impeller.__init__`: one curve per group of equal speeds, in turn. */
  method MakeImpeller(points: seq<ImpPoint>, pow: (real, real) -> real) returns (r: Result<Impeller>)
    ensures r == ImpellerOf(points, pow)
  {
    if points == [] {
      return Fail(ValueError(EmptyMaxMessage));
    }
    var maxLosses := MaxLosses(points);
    var maxSpeed := LossesSpeed(points, maxLosses).value;
    var groups := GroupBySpeed(SortBy(points, SpeedLe));
    var f := g => GroupCurve(g, maxLosses, maxSpeed, pow);
    var curves: seq<Curve.Curve> := [];
    for i := 0 to |groups|
      invariant MapAll(groups[..i], f) == Ok(curves)
    {
      var curve := f(groups[i]);
      if curve.Fail? {
        MapAllFailFrom(groups, f, i);
        return Fail(curve.exc);
      }
      MapAllSnoc(groups, f, i, curves);
      curves := curves + [curve.value];
    }
    assert groups[..|groups|] == groups;
    return Ok(Impeller(points, curves));
  }

  // ---------------------------------------------------------------------------
  // Properties of the grouping

  predicate Uniform(g: seq<ImpPoint>)
  {
    g != [] && forall i :: 0 <= i < |g| ==> g[i].cp.speed == g[0].cp.speed
  }

  /** The groups hold the points in order, each group at one speed, and groups next
      to each other at different speeds. */
  lemma GroupsPartition(ps: seq<ImpPoint>)
    ensures Flatten(GroupBySpeed(ps)) == ps
    ensures forall k :: 0 <= k < |GroupBySpeed(ps)| ==> Uniform(GroupBySpeed(ps)[k])
    ensures forall k :: 0 <= k < |GroupBySpeed(ps)| - 1 ==>
      GroupBySpeed(ps)[k][0].cp.speed != GroupBySpeed(ps)[k + 1][0].cp.speed
  {
    GroupsFlatten(ps);
    GroupsUniform(ps);
    GroupsSpeedsChange(ps);
  }

  lemma {:induction false} GroupsFlatten(ps: seq<ImpPoint>)
    ensures Flatten(GroupBySpeed(ps)) == ps
  {
    if ps != [] {
      var rest: seq<seq<ImpPoint>> := GroupBySpeed(ps[1..]);
      GroupsFlatten(ps[1..]);
      var gs: seq<seq<ImpPoint>> := GroupBySpeed(ps);
      if rest != [] && rest[0][0].cp.speed == ps[0].cp.speed {
        assert gs == [[ps[0]] + rest[0]] + rest[1..];
        assert Flatten(gs) == [ps[0]] + rest[0] + Flatten(rest[1..]);
        assert Flatten(rest) == rest[0] + Flatten(rest[1..]);
      } else {
        assert gs == [[ps[0]]] + rest;
      }
    }
  }

  lemma {:induction false} GroupsUniform(ps: seq<ImpPoint>)
    ensures forall k :: 0 <= k < |GroupBySpeed(ps)| ==> Uniform(GroupBySpeed(ps)[k])
  {
    if ps != [] {
      var rest: seq<seq<ImpPoint>> := GroupBySpeed(ps[1..]);
      GroupsUniform(ps[1..]);
      var gs: seq<seq<ImpPoint>> := GroupBySpeed(ps);
      if rest != [] && rest[0][0].cp.speed == ps[0].cp.speed {
        assert gs == [[ps[0]] + rest[0]] + rest[1..];
        forall k | 1 <= k < |gs| ensures Uniform(gs[k]) {
          assert gs[k] == rest[k];
        }
      } else {
        assert gs == [[ps[0]]] + rest;
        forall k | 1 <= k < |gs| ensures Uniform(gs[k]) {
          assert gs[k] == rest[k - 1];
        }
      }
    }
  }

  lemma {:induction false} GroupsSpeedsChange(ps: seq<ImpPoint>)
    ensures forall k :: 0 <= k < |GroupBySpeed(ps)| - 1 ==>
      GroupBySpeed(ps)[k][0].cp.speed != GroupBySpeed(ps)[k + 1][0].cp.speed
  {
    if ps != [] {
      var rest: seq<seq<ImpPoint>> := GroupBySpeed(ps[1..]);
      GroupsSpeedsChange(ps[1..]);
      var gs: seq<seq<ImpPoint>> := GroupBySpeed(ps);
      if rest != [] && rest[0][0].cp.speed == ps[0].cp.speed {
        assert gs == [[ps[0]] + rest[0]] + rest[1..];
        forall k | 0 <= k < |gs| - 1
          ensures gs[k][0].cp.speed != gs[k + 1][0].cp.speed
        {
          assert gs[k + 1] == rest[k + 1];
          if k > 0 {
            assert gs[k] == rest[k];
          }
        }
      } else {
        assert gs == [[ps[0]]] + rest;
        forall k | 0 <= k < |gs| - 1
          ensures gs[k][0].cp.speed != gs[k + 1][0].cp.speed
        {
          assert gs[k + 1] == rest[k];
          if k > 0 {
            assert gs[k] == rest[k - 1];
          }
        }
      }
    }
  }


  /** Groups of a list sorted by speed follow each other in strictly ascending
      speed. */
  lemma {:induction false} SortedGroupsAscending(gs: seq<seq<ImpPoint>>)
    requires SortedBy(Flatten(gs), SpeedLe)
    requires forall k :: 0 <= k < |gs| ==> gs[k] != [] && Uniform(gs[k])
    requires forall k :: 0 <= k < |gs| - 1 ==> gs[k][0].cp.speed != gs[k + 1][0].cp.speed
    ensures forall k, l :: 0 <= k < l < |gs| ==> gs[k][0].cp.speed < gs[l][0].cp.speed
  {
    if |gs| > 1 {
      var rest := gs[1..];
      assert Flatten(gs) == gs[0] + Flatten(rest);
      forall i, j | 0 <= i < j < |Flatten(rest)| ensures SpeedLe(Flatten(rest)[i], Flatten(rest)[j]) {
        assert Flatten(rest)[i] == Flatten(gs)[|gs[0]| + i] && Flatten(rest)[j] == Flatten(gs)[|gs[0]| + j];
      }
      forall k | 0 <= k < |rest| ensures rest[k] != [] && Uniform(rest[k]) {
        assert rest[k] == gs[k + 1];
      }
      forall k | 0 <= k < |rest| - 1 ensures rest[k][0].cp.speed != rest[k + 1][0].cp.speed {
        assert rest[k] == gs[k + 1] && rest[k + 1] == gs[k + 2];
      }
      SortedGroupsAscending(rest);
      assert Flatten(rest) == rest[0] + Flatten(rest[1..]);
      assert Flatten(gs)[0] == gs[0][0] && Flatten(gs)[|gs[0]|] == gs[1][0];
      assert gs[0][0].cp.speed <= gs[1][0].cp.speed;
      forall k, l | 0 <= k < l < |gs| ensures gs[k][0].cp.speed < gs[l][0].cp.speed {
        if k > 0 {
          assert gs[k] == rest[k - 1] && gs[l] == rest[l - 1];
        } else if l > 1 {
          assert gs[1] == rest[0] && gs[l] == rest[l - 1];
        }
      }
    }
  }

  /** A point of the flattened groups lies in one of the groups. */
  lemma {:induction false} InFlatten<T>(gs: seq<seq<T>>, x: T)
    requires x in Flatten(gs)
    ensures exists k :: 0 <= k < |gs| && x in gs[k]
  {
    assert gs != [];
    assert Flatten(gs) == gs[0] + Flatten(gs[1..]);
    if x !in gs[0] {
      InFlatten(gs[1..], x);
      var k :| 0 <= k < |gs[1..]| && x in gs[1..][k];
      assert x in gs[k + 1];
    }
  }

  function TotalSize(cs: seq<Curve.Curve>): nat
  {
    if cs == [] then 0 else |cs[0].points| + TotalSize(cs[1..])
  }

  /** The curve of a group of one speed has that speed and one point per point of
      the group. */
  lemma GroupCurveSpeed(g: seq<ImpPoint>, maxLosses: real, maxSpeed: real, pow: (real, real) -> real)
    requires Uniform(g) && GroupCurve(g, maxLosses, maxSpeed, pow).Ok?
    ensures GroupCurve(g, maxLosses, maxSpeed, pow).value.speed == g[0].cp.speed
    ensures |GroupCurve(g, maxLosses, maxSpeed, pow).value.points| == |g|
  {
    var adjusted := MapAll(g, p => Adjusted(p, maxLosses, maxSpeed, pow)).value;
    var cps := CurvePoints(adjusted);
    var c := Curve.CurveOf(cps).value;
    assert cps[0] == g[0].cp;
    assert cps[0] in multiset(c.points);
    var i :| 0 <= i < |c.points| && c.points[i] == cps[0];
  }

  /** The curves of a list of groups: each at its group's speed, with as many points
      in all as the groups hold. */
  lemma {:induction false} CurvesOfGroups(gs: seq<seq<ImpPoint>>, maxLosses: real, maxSpeed: real, pow: (real, real) -> real)
    requires forall k :: 0 <= k < |gs| ==> Uniform(gs[k])
    requires MapAll(gs, g => GroupCurve(g, maxLosses, maxSpeed, pow)).Ok?
    ensures var cs := MapAll(gs, g => GroupCurve(g, maxLosses, maxSpeed, pow)).value;
      && (forall k :: 0 <= k < |gs| ==> cs[k].speed == gs[k][0].cp.speed)
      && TotalSize(cs) == |Flatten(gs)|
  {
    var f := g => GroupCurve(g, maxLosses, maxSpeed, pow);
    var cs := MapAll(gs, f).value;
    forall k | 0 <= k < |gs| ensures cs[k].speed == gs[k][0].cp.speed && |cs[k].points| == |gs[k]| {
      GroupCurveSpeed(gs[k], maxLosses, maxSpeed, pow);
    }
    if gs != [] {
      CurvesOfGroups(gs[1..], maxLosses, maxSpeed, pow);
      var cs' := MapAll(gs[1..], f).value;
      assert cs' == cs[1..];
      assert Flatten(gs) == gs[0] + Flatten(gs[1..]);
    }
  }

  /** `Impeller(points)` builds one curve per distinct speed, in strictly ascending
      speed order, with every point at the speed of some curve and, in all, as many
      points in the curves as were given. */
  lemma ImpellerCurves(points: seq<ImpPoint>, pow: (real, real) -> real)
    requires ImpellerOf(points, pow).Ok?
    ensures var cs := ImpellerOf(points, pow).value.curves;
      && (forall k, l :: 0 <= k < l < |cs| ==> cs[k].speed < cs[l].speed)
      && (forall i :: 0 <= i < |points| ==> exists k :: 0 <= k < |cs| && cs[k].speed == points[i].cp.speed)
      && TotalSize(cs) == |points|
  {
    var maxLosses := MaxLosses(points);
    var maxSpeed := LossesSpeed(points, maxLosses).value;
    var sorted := SortBy(points, SpeedLe);
    var groups := GroupBySpeed(sorted);
    SortByPermutation(points, SpeedLe);
    SpeedOrder();
    SortBySorted(points, SpeedLe);
    GroupsPartition(sorted);
    SortedGroupsAscending(groups);
    CurvesOfGroups(groups, maxLosses, maxSpeed, pow);
    var cs := ImpellerOf(points, pow).value.curves;
    assert cs == MapAll(groups, g => GroupCurve(g, maxLosses, maxSpeed, pow)).value;
    forall i | 0 <= i < |points| ensures exists k :: 0 <= k < |cs| && cs[k].speed == points[i].cp.speed {
      assert points[i] in multiset(sorted);
      InFlatten(groups, points[i]);
      var k :| 0 <= k < |groups| && points[i] in groups[k];
      var j :| 0 <= j < |groups[k]| && groups[k][j] == points[i];
      assert cs[k].speed == groups[k][0].cp.speed;
    }
  }

  // ---------------------------------------------------------------------------
  // Queries at a speed

  /** `np.allclose(a, b)` with its default tolerances. */
  predicate AllClose(a: real, b: real)
  {
    Abs(a - b) <= 0.00000001 + 0.00001 * Abs(b)
  }

  /** The curve a query uses: the only curve, or the two closest curves and the
      fraction of the way from the first to the second. */
  datatype Choice = Single | Between(lo: int, hi: int, factor: real)

  const SingleSpeedMessage := "Can only interpolate for speed="
  const NoSpeedMessage := "unsupported operand type(s) for /: 'NoneType' and 'Quantity'"

  /** The choice `Impeller.curve(speed)` makes among curves at `speeds` (strictly
      ascending, as `Impeller(points)` builds them). */
  function CurveChoice(speeds: seq<real>, speed: Option<real>): (r: Result<Choice>)
    requires |speeds| >= 1 && StrictlyAscending(speeds)
    ensures |speeds| == 1 ==> (r.Ok? <==> speed.None? || AllClose(speed.value, speeds[0]))
    ensures |speeds| == 1 && r.Ok? ==> r.value == Single
    ensures |speeds| >= 2 ==> (r.Ok? <==> speed.Some?)
    ensures |speeds| >= 2 && r.Ok? ==> r.value.Between? && 0 <= r.value.lo && r.value.hi == r.value.lo + 1 < |speeds|
  {
    if |speeds| == 1 then
      if speed.Some? && !AllClose(speed.value, speeds[0]) then Fail(ValueError(SingleSpeedMessage))
      else Ok(Single)
    else if speed.None? then Fail(TypeError(NoSpeedMessage))
    else
      var pair := FindClosestSpeeds(speeds, speed.value).value;
      Ok(Between(pair.0, pair.1, (speed.value - speeds[pair.0]) / (speeds[pair.1] - speeds[pair.0])))
  }

  /** The fraction of the way from `lo` to `hi` at which `v` lies. */
  lemma Fraction(lo: real, hi: real, v: real)
    requires lo < hi && lo <= v <= hi
    ensures 0.0 <= (v - lo) / (hi - lo) <= 1.0
  {
    var d := hi - lo;
    Reals.DivNonneg(v - lo, d);
    Reals.DivNonneg(hi - v, d);
    assert (v - lo) / d + (hi - v) / d == d / d;
    Reals.SelfDivision(d);
  }

  /** Inside the range of the curves the factor is a fraction in [0, 1] between
      two curves that bracket the speed. */
  lemma FactorWithin(speeds: seq<real>, v: real)
    requires |speeds| >= 2 && StrictlyAscending(speeds) && speeds[0] <= v <= speeds[|speeds| - 1]
    ensures var c := CurveChoice(speeds, Some(v)).value;
      && speeds[c.lo] <= v <= speeds[c.hi]
      && 0.0 <= c.factor <= 1.0
  {
    ClosestSpeedsBracket(speeds, v);
    var c := CurveChoice(speeds, Some(v)).value;
    Fraction(speeds[c.lo], speeds[c.hi], v);
  }

  /** At a stored speed the interpolation lands on that curve: factor 0 from it, or
      factor 1 towards it when it is the last. */
  lemma FactorAtStored(speeds: seq<real>, k: nat)
    requires |speeds| >= 2 && StrictlyAscending(speeds) && k < |speeds|
    ensures var c := CurveChoice(speeds, Some(speeds[k])).value;
      (c.lo == k && c.factor == 0.0) || (c.hi == k && c.factor == 1.0)
  {
    ClosestSpeedsAtStored(speeds, k);
    var pair := FindClosestSpeeds(speeds, speeds[k]).value;
    var c := CurveChoice(speeds, Some(speeds[k])).value;
    var span := speeds[pair.1] - speeds[pair.0];
    assert c == Between(pair.0, pair.1, (speeds[k] - speeds[pair.0]) / span);
    assert span > 0.0;
    if pair.0 == k {
      assert speeds[k] - speeds[pair.0] == 0.0;
    } else {
      assert pair.1 == k;
      Reals.SelfDivision(span);
    }
  }

  const SpeedUndefinedMessage := "Speed must be defined."
  const FlowUndefinedMessage := "Either flow_v or flow_m must be defined."
  const NoFlowMessage := "'<' not supported between instances of 'NoneType' and 'Quantity'"

  /** The argument checks of `Impeller.point`, the curve it uses and the
      volumetric flow it evaluates that curve at; `sucV` is the specific volume of
      the suction state of the curve's first point. */
  function PointRequest(speeds: seq<real>, flowV: Option<real>, flowM: Option<real>, speed: Option<real>, sucV: real): (r: Result<(Choice, real)>)
    requires |speeds| >= 1 && StrictlyAscending(speeds)
    ensures speed.None? ==> r == Fail(ValueError(SpeedUndefinedMessage))
    ensures speed.Some? && flowV.None? && flowM.None? ==> r == Fail(ValueError(FlowUndefinedMessage))
    ensures r.Ok? ==> CurveChoice(speeds, speed) == Ok(r.value.0)
    ensures r.Ok? && flowM.Some? && flowM.value != 0.0 ==> r.value.1 == sucV * flowM.value
    ensures r.Ok? && (flowM.None? || flowM.value == 0.0) ==> flowV.Some? && r.value.1 == flowV.value
  {
    if speed.None? then Fail(ValueError(SpeedUndefinedMessage))
    else if flowV.None? && flowM.None? then Fail(ValueError(FlowUndefinedMessage))
    else
      var choice :- CurveChoice(speeds, speed);
      if flowM.Some? && flowM.value != 0.0 then Ok((choice, sucV * flowM.value))
      else if flowV.None? then Fail(TypeError(NoFlowMessage))
      else Ok((choice, flowV.value))
  }

  /** A zero mass flow is falsy: it is ignored, and without a volumetric flow the
      later comparison of `None` with the flow limits raises `TypeError`. */
  lemma ZeroMassFlow(speeds: seq<real>, speed: real, sucV: real)
    requires |speeds| >= 1 && StrictlyAscending(speeds) && CurveChoice(speeds, Some(speed)).Ok?
    ensures PointRequest(speeds, None, Some(0.0), Some(speed), sucV) == Fail(TypeError(NoFlowMessage))
  {
  }
}
