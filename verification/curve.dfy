/** `Curve`: the points of one speed line, sorted by volumetric flow, with one array
    per performance parameter. A point is seen through what the curve reads of it;
    the suction and discharge states and the plotting helpers are not modelled. */
module Curve {
  import opened Wrappers
  import opened Sorting

  /** A magnitude with its unit, as pint holds it. */
  datatype Measure = Measure(m: real, units: string)

  /** What a curve reads from a point. A parameter the point lacks (or holds as
      `None`) is `None`: reading its magnitude raises `AttributeError`. */
  datatype CurvePoint = CurvePoint(
    flowV: real, speed: real,
    head: Option<Measure>, eff: Option<Measure>, power: Option<Measure>,
    phi: Option<Measure>, psi: Option<Measure>)

  /** The parameters given an array each, in the order the constructor visits them. */
  const ParamNames: seq<string> := ["head", "eff", "power", "phi", "psi"]
  const ParamCount := 5

  function Param(p: CurvePoint, k: nat): Option<Measure>
    requires k < ParamCount
  {
    if k == 0 then p.head
    else if k == 1 then p.eff
    else if k == 2 then p.power
    else if k == 3 then p.phi
    else p.psi
  }

  /** One parameter array: `Q_(values, units)`. */
  datatype Column = Column(values: seq<real>, units: string)

  datatype Curve = Curve(points: seq<CurvePoint>, flowV: seq<real>, speed: real, columns: seq<Column>)

  const TooFewMessage := "At least 2 points should be given."
  const SpeedMessage := "Speed for each point should be equal"

  /** `sorted(points, key=lambda p: p.flow_v)` compares the flows. */
  predicate FlowLe(p: CurvePoint, q: CurvePoint)
  {
    p.flowV <= q.flowV
  }

  lemma FlowOrder()
    ensures TotalPreorder(FlowLe)
  {
  }

  // ---------------------------------------------------------------------------
  // Specification

  predicate AllAtSpeed(ps: seq<CurvePoint>, speed: real)
  {
    forall i :: 0 <= i < |ps| ==> ps[i].speed == speed
  }

  /** The magnitudes of parameter `k` of the points that have it, in order. */
  function ColumnOf(ps: seq<CurvePoint>, k: nat): (r: seq<real>)
    requires k < ParamCount
    ensures |r| <= |ps|
    ensures |r| == |ps| <==> forall i :: 0 <= i < |ps| ==> Param(ps[i], k).Some?
  {
    if ps == [] then []
    else
      var n := |ps| - 1;
      var init := ColumnOf(ps[..n], k);
      assert forall i :: 0 <= i < n ==> ps[..n][i] == ps[i];
      var last := Param(ps[n], k);
      if last.Some? then init + [last.value.m] else init
  }

  /** The value of `units` after visiting `ps` for parameter `k`: the unit of the
      last point that has it, else what `units` held before (`carried`). */
  function UnitsOf(ps: seq<CurvePoint>, k: nat, carried: Option<string>): (r: Option<string>)
    requires k < ParamCount
  {
    if ps == [] then carried
    else
      var last := Param(ps[|ps| - 1], k);
      if last.Some? then Some(last.value.units) else UnitsOf(ps[..|ps| - 1], k, carried)
  }

  /** The arrays of the first `n` parameters. `units` is a local of the constructor
      that no parameter resets, so an array with no values takes the unit of the
      previous one; before the first it is unbound (`UnboundLocalError`, a
      `NameError`). */
  function Columns(ps: seq<CurvePoint>, n: nat): (r: Result<seq<Column>>)
    requires n <= ParamCount
    ensures r.Ok? ==> |r.value| == n
    ensures r.Fail? ==> r.exc == NameError("units")
  {
    if n == 0 then Ok([])
    else
      var cols :- Columns(ps, n - 1);
      var units := UnitsOf(ps, n - 1, if n == 1 then None else Some(cols[n - 2].units));
      if units.None? then Fail(NameError("units"))
      else Ok(cols + [Column(ColumnOf(ps, n - 1), units.value)])
  }

  /** `Curve(points)`. */
  function CurveOf(points: seq<CurvePoint>): (r: Result<Curve>)
    ensures r == Fail(TypeError(TooFewMessage)) <==> |points| < 2
    ensures r.Ok? ==> multiset(r.value.points) == multiset(points)
    ensures r.Ok? ==> SortedBy(r.value.points, FlowLe)
    ensures r.Ok? ==> |r.value.flowV| == |points| && |r.value.points| == |points|
    ensures r.Ok? ==> forall i :: 0 <= i < |points| ==> r.value.flowV[i] == r.value.points[i].flowV
    ensures r.Ok? ==> forall i :: 0 <= i < |points| ==> r.value.points[i].speed == r.value.speed
    ensures r.Ok? ==> |r.value.columns| == ParamCount
  {
    if |points| < 2 then Fail(TypeError(TooFewMessage))
    else
      SortByPermutation(points, FlowLe);
      FlowOrder();
      SortBySorted(points, FlowLe);
      var sorted := SortBy(points, FlowLe);
      var speed := sorted[0].speed;
      if !AllAtSpeed(sorted, speed) then Fail(ValueError(SpeedMessage))
      else
        var cols :- Columns(sorted, ParamCount);
        Ok(Curve(sorted, seq(|sorted|, i requires 0 <= i < |sorted| => sorted[i].flowV), speed, cols))
  }

  // ---------------------------------------------------------------------------
  // The constructor

  /** `Curve.__init__`: sort, check the speeds, then collect each parameter array. */
  method MakeCurve(points: seq<CurvePoint>) returns (r: Result<Curve>)
    ensures r == CurveOf(points)
  {
    if |points| < 2 {
      return Fail(TypeError(TooFewMessage));
    }
    SortByPermutation(points, FlowLe);
    var sorted := SortBy(points, FlowLe);
    var flowV := seq(|sorted|, i requires 0 <= i < |sorted| => sorted[i].flowV);
    var speed := sorted[0].speed;
    var same := CheckSpeed(sorted, speed);
    if !same {
      return Fail(ValueError(SpeedMessage));
    }
    var cols :- CollectColumns(sorted);
    return Ok(Curve(sorted, flowV, speed, cols));
  }

  /** The speed check of the constructor: does every point run at `speed`? */
  method CheckSpeed(ps: seq<CurvePoint>, speed: real) returns (same: bool)
    ensures same == AllAtSpeed(ps, speed)
  {
    for i := 0 to |ps|
      invariant forall j :: 0 <= j < i ==> ps[j].speed == speed
    {
      if speed != ps[i].speed {
        return false;
      }
    }
    return true;
  }

  /** The parameter loop of the constructor: one array per parameter. */
  method CollectColumns(ps: seq<CurvePoint>) returns (r: Result<seq<Column>>)
    ensures r == Columns(ps, ParamCount)
  {
    var cols: seq<Column> := [];
    var units: Option<string> := None;
    for k := 0 to ParamCount
      invariant Columns(ps, k) == Ok(cols)
      invariant units == if k == 0 then None else Some(cols[k - 1].units)
    {
      var values;
      values, units := CollectParam(ps, k, units);
      if units.None? {
        ColumnsStopped(ps, k + 1, ParamCount);
        return Fail(NameError("units"));
      }
      cols := cols + [Column(values, units.value)];
    }
    return Ok(cols);
  }

  /** The inner loop of the constructor: the magnitudes of parameter `k` of the
      points that have it, and the unit `units` holds afterwards. */
  method CollectParam(ps: seq<CurvePoint>, k: nat, carried: Option<string>) returns (values: seq<real>, units: Option<string>)
    requires k < ParamCount
    ensures values == ColumnOf(ps, k) && units == UnitsOf(ps, k, carried)
  {
    values, units := [], carried;
    for i := 0 to |ps|
      invariant values == ColumnOf(ps[..i], k)
      invariant units == UnitsOf(ps[..i], k, carried)
    {
      assert ps[..i + 1][..i] == ps[..i];
      var value := Param(ps[i], k);
      if value.Some? {
        values := values + [value.value.m];
        units := Some(value.value.units);
      }
    }
    assert ps[..|ps|] == ps;
  }

  // ---------------------------------------------------------------------------
  // Properties

  /** Once collecting the arrays fails, collecting more fails the same way. */
  lemma {:induction false} ColumnsStopped(ps: seq<CurvePoint>, n: nat, m: nat)
    requires n <= m <= ParamCount && Columns(ps, n).Fail?
    ensures Columns(ps, m).Fail?
    decreases m
  {
    if m > n {
      ColumnsStopped(ps, n, m - 1);
    }
  }

  /** The speed check fails exactly when two of the given points differ in speed. */
  lemma SpeedMismatch(points: seq<CurvePoint>)
    requires |points| >= 2
    ensures CurveOf(points) == Fail(ValueError(SpeedMessage))
      <==> exists i, j :: 0 <= i < |points| && 0 <= j < |points| && points[i].speed != points[j].speed
  {
    SortByPermutation(points, FlowLe);
    var sorted := SortBy(points, FlowLe);
    if exists i, j :: 0 <= i < |points| && 0 <= j < |points| && points[i].speed != points[j].speed {
      var i, j :| 0 <= i < |points| && 0 <= j < |points| && points[i].speed != points[j].speed;
      assert points[i] in multiset(sorted) && points[j] in multiset(sorted);
      var a :| 0 <= a < |sorted| && sorted[a] == points[i];
      var b :| 0 <= b < |sorted| && sorted[b] == points[j];
      assert sorted[a].speed != sorted[0].speed || sorted[b].speed != sorted[0].speed;
    } else {
      forall a | 0 <= a < |sorted| ensures sorted[a].speed == sorted[0].speed {
        assert sorted[a] in multiset(points) && sorted[0] in multiset(points);
        var i :| 0 <= i < |points| && points[i] == sorted[a];
        var j :| 0 <= j < |points| && points[j] == sorted[0];
      }
    }
  }

  /** Once `units` holds a unit it keeps one. */
  lemma {:induction false} UnitsCarried(ps: seq<CurvePoint>, k: nat, u: string)
    requires k < ParamCount
    ensures UnitsOf(ps, k, Some(u)).Some?
  {
    if ps != [] {
      UnitsCarried(ps[..|ps| - 1], k, u);
    }
  }

  /** Before the first parameter, `units` stays unbound exactly when no point has it. */
  lemma {:induction false} UnitsUnbound(ps: seq<CurvePoint>, k: nat)
    requires k < ParamCount
    ensures UnitsOf(ps, k, None).None? <==> forall i :: 0 <= i < |ps| ==> Param(ps[i], k).None?
  {
    if ps != [] {
      var n := |ps| - 1;
      UnitsUnbound(ps[..n], k);
      assert forall i :: 0 <= i < n ==> ps[..n][i] == ps[i];
    }
  }

  /** Collecting the arrays fails only when no point has a head. */
  lemma {:induction false} ColumnsFail(ps: seq<CurvePoint>, n: nat)
    requires 1 <= n <= ParamCount
    ensures Columns(ps, n).Fail? <==> forall i :: 0 <= i < |ps| ==> ps[i].head.None?
    ensures Columns(ps, n).Fail? ==> Columns(ps, n).exc == NameError("units")
  {
    UnitsUnbound(ps, 0);
    assert forall i :: 0 <= i < |ps| ==> Param(ps[i], 0) == ps[i].head;
    if n > 1 {
      ColumnsFail(ps, n - 1);
      var prev := Columns(ps, n - 1);
      if prev.Ok? {
        UnitsCarried(ps, n - 1, prev.value[n - 2].units);
      }
    }
  }

  /** A curve whose points all carry parameter `k` has one value per point, in the
      sorted order. */
  lemma {:induction false} ColumnFull(ps: seq<CurvePoint>, k: nat)
    requires k < ParamCount
    requires forall i :: 0 <= i < |ps| ==> Param(ps[i], k).Some?
    ensures forall i :: 0 <= i < |ps| ==> ColumnOf(ps, k)[i] == Param(ps[i], k).value.m
  {
    if ps != [] {
      var n := |ps| - 1;
      assert forall i :: 0 <= i < n ==> ps[..n][i] == ps[i];
      ColumnFull(ps[..n], k);
    }
  }

  /** `interpolated_function`: the spline degree for `n` values. */
  function Degree(n: nat): (d: nat)
    ensures d == 1 || d == 3
    ensures d == 1 <==> n < 3
  {
    if n < 3 then 1 else 3
  }

  /** On a curve whose points all carry parameter `k`, the interpolation of that
      parameter is linear for two points and cubic from three. */
  lemma CurveDegree(points: seq<CurvePoint>, k: nat)
    requires k < ParamCount
    requires CurveOf(points).Ok?
    requires forall i :: 0 <= i < |points| ==> Param(points[i], k).Some?
    ensures Degree(|CurveOf(points).value.columns[k].values|) == if |points| < 3 then 1 else 3
  {
    var c := CurveOf(points).value;
    SortByPermutation(points, FlowLe);
    var sorted := SortBy(points, FlowLe);
    forall i | 0 <= i < |sorted| ensures Param(sorted[i], k).Some? {
      assert sorted[i] in multiset(points);
    }
    ColumnsEntry(sorted, ParamCount, k);
  }

  /** Each array is the column of its parameter. */
  lemma {:induction false} ColumnsEntry(ps: seq<CurvePoint>, n: nat, k: nat)
    requires k < n <= ParamCount && Columns(ps, n).Ok?
    ensures Columns(ps, n).value[k].values == ColumnOf(ps, k)
  {
    if k < n - 1 {
      ColumnsEntry(ps, n - 1, k);
    }
  }

  /** `curve[item]`: Python list indexing, negative indices counting from the end. */
  function At(c: Curve, item: int): (r: Result<CurvePoint>)
    ensures r.Ok? <==> -|c.points| <= item < |c.points|
    ensures r.Fail? ==> r.exc == IndexError
    ensures r.Ok? ==> r.value in c.points
  {
    if 0 <= item < |c.points| then Ok(c.points[item])
    else if -|c.points| <= item < 0 then Ok(c.points[|c.points| + item])
    else Fail(IndexError)
  }

  /** In a curve sorted by flow, `curve[0]` has the least flow and `curve[-1]` the greatest. */
  lemma EndsOfSorted(c: Curve, item: int)
    requires SortedBy(c.points, FlowLe)
    requires -|c.points| <= item < |c.points|
    ensures At(c, 0).value.flowV <= At(c, item).value.flowV <= At(c, -1).value.flowV
  {
    var n := |c.points|;
    var k := if item >= 0 then item else n + item;
    assert At(c, item).value == c.points[k];
    assert 0 < k ==> FlowLe(c.points[0], c.points[k]);
    assert k < n - 1 ==> FlowLe(c.points[k], c.points[n - 1]);
  }

  /** `curve[0]` has the least flow of the curve and `curve[-1]` the greatest. */
  lemma EndsOfCurve(points: seq<CurvePoint>, item: int)
    requires CurveOf(points).Ok?
    requires -|points| <= item < |points|
    ensures var c := CurveOf(points).value;
      At(c, 0).value.flowV <= At(c, item).value.flowV <= At(c, -1).value.flowV
  {
    EndsOfSorted(CurveOf(points).value, item);
  }
}
