/** The checks and conversions the impeller loaders make before interpolating:
    `load_from_dict`, `load_from_dict_isis` and `load_from_engauge_csv`. The flow
    unit conversions and the interpolation itself are not modelled; the dictionaries
    arrive with their flows already in the common units. */
module ImpellerLoad {
  import opened Wrappers
  import opened Dicts
  import opened Text
  import Reals

  /** One curve of a parameter: flows, values and the power losses. */
  datatype CurveData = CurveData(x1: seq<real>, x2: seq<real>, x3: real)

  /** One parameter's curves, by speed (the speed as the dictionary key). */
  type SpeedCurves = Dict<string, CurveData>

  // ---------------------------------------------------------------------------
  // Collecting the curve arguments

  /** `"_".join(k.split("_")[:-1])`: the argument name without its last part. */
  function CurveName(k: string): string
  {
    var parts := Split(k, '_');
    Join(parts[..|parts| - 1], "_")
  }

  /** The curve argument of a parameter is named after it. */
  lemma CurveNameOf(p: string)
    ensures CurveName(p + "_curves") == p
  {
    var parts := Split(p + "_curves", '_');
    assert parts == Split(p, '_') + ["curves"] by {
      assert p + "_curves" == p + ['_'] + "curves";
      SplitAround(p, "curves", '_');
      SplitNoSeparator("curves", '_');
    }
    assert parts[..|parts| - 1] == Split(p, '_');
    JoinSplit(p, '_');
  }

  /** An argument the collecting loop keeps. */
  predicate IsCurveArg(arg: (string, Option<SpeedCurves>))
  {
    Contains(arg.0, "curves") && arg.1.Some?
  }

  /** `curves[curve_name] = v` for every keyword argument whose name contains
      "curves" and whose value is not `None`, in order. */
  function Collected(args: seq<(string, Option<SpeedCurves>)>): (r: Dict<string, SpeedCurves>)
    ensures |r| <= |args|
  {
    if args == [] then []
    else
      var d := Collected(args[..|args| - 1]);
      var arg := args[|args| - 1];
      if IsCurveArg(arg) then
        SetKeys(d, CurveName(arg.0), arg.1.value);
        Set(d, CurveName(arg.0), arg.1.value)
      else d
  }

  /** Reference lookup: the value of the last kept argument with the given curve
      name. */
  function LastCurve(args: seq<(string, Option<SpeedCurves>)>, name: string): Option<SpeedCurves>
  {
    if args == [] then None
    else
      var arg := args[|args| - 1];
      if IsCurveArg(arg) && CurveName(arg.0) == name then arg.1
      else LastCurve(args[..|args| - 1], name)
  }

  /** The collected dictionary maps each curve name to the last argument given
      for it, and knows no other name. */
  lemma {:induction false} CollectedGet(args: seq<(string, Option<SpeedCurves>)>, name: string)
    ensures Get(Collected(args), name) == LastCurve(args, name)
  {
    if args != [] {
      var init := args[..|args| - 1];
      CollectedGet(init, name);
      var arg := args[|args| - 1];
      if IsCurveArg(arg) {
        GetSet(Collected(init), CurveName(arg.0), arg.1.value, name);
      }
    }
  }

  /** The loop over the keyword arguments. */
  method CollectCurves(args: seq<(string, Option<SpeedCurves>)>) returns (curves: Dict<string, SpeedCurves>)
    ensures curves == Collected(args)
  {
    curves := [];
    for i := 0 to |args|
      invariant curves == Collected(args[..i])
    {
      assert args[..i + 1][..i] == args[..i];
      var (k, v) := args[i];
      if Contains(k, "curves") && v.Some? {
        curves := Set(curves, CurveName(k), v.value);
      }
    }
    assert args[..|args|] == args;
  }

  // ---------------------------------------------------------------------------
  // Efficiencies given in percent

  /** `max(curves["eff"][speeds[0]]["x2"]) > 1`: whether the efficiencies are in
      percent. */
  function InPercent(eff: SpeedCurves, speeds: seq<string>): (r: Result<bool>)
    ensures speeds == [] ==> r == Fail(IndexError)
    ensures speeds != [] && speeds[0] !in Keys(eff) ==> r == Fail(KeyError(speeds[0]))
    ensures r == Ok(true) <==>
      speeds != [] && Get(eff, speeds[0]).Some?
      && exists i :: 0 <= i < |Get(eff, speeds[0]).value.x2| && Get(eff, speeds[0]).value.x2[i] > 1.0
  {
    if speeds == [] then Fail(IndexError)
    else
      GetKeys(eff, speeds[0]);
      match Get(eff, speeds[0])
      case None => Fail(KeyError(speeds[0]))
      case Some(c) =>
        if c.x2 == [] then Fail(ValueError("max() arg is an empty sequence"))
        else
          Reals.MaxOfAbove(c.x2, 1.0);
          Ok(Reals.MaxOf(c.x2) > 1.0)
  }

  /** The efficiencies of one curve divided by 100. */
  function Percent(c: CurveData): (r: CurveData)
    ensures r.x1 == c.x1 && r.x3 == c.x3
    ensures |r.x2| == |c.x2| && forall i :: 0 <= i < |c.x2| ==> r.x2[i] * 100.0 == c.x2[i]
  {
    c.(x2 := Reals.Scaled(c.x2, 100.0))
  }

  /** `curves["eff"][speed]["x2"] = [i / 100 for i in ...]` for every speed in
      turn. */
  function Rescaled(eff: SpeedCurves, speeds: seq<string>): (r: Result<SpeedCurves>)
    ensures speeds == [] ==> r == Ok(eff)
    ensures r.Fail? ==> r.exc.KeyError? && r.exc.key in speeds
  {
    if speeds == [] then Ok(eff)
    else
      var speed := speeds[|speeds| - 1];
      var d :- Rescaled(eff, speeds[..|speeds| - 1]);
      match Get(d, speed)
      case None => Fail(KeyError(speed))
      case Some(c) => Ok(Set(d, speed, Percent(c)))
  }

  predicate Distinct(s: seq<string>)
  {
    forall i, j :: 0 <= i < j < |s| ==> s[i] != s[j]
  }

  /** On distinct speeds the rescale succeeds exactly when the efficiencies have
      every speed; then each listed speed's efficiencies are divided by 100 once,
      every other entry is kept and the keys keep their order. */
  lemma RescaledCurves(eff: SpeedCurves, speeds: seq<string>, s: string)
    requires Distinct(speeds)
    ensures Rescaled(eff, speeds).Ok? <==> forall i :: 0 <= i < |speeds| ==> speeds[i] in Keys(eff)
    ensures Rescaled(eff, speeds).Ok? ==>
      && Keys(Rescaled(eff, speeds).value) == Keys(eff)
      && Get(Rescaled(eff, speeds).value, s) ==
         match Get(eff, s)
         case None => None
         case Some(c) => if s in speeds then Some(Percent(c)) else Some(c)
  {
    RescaledKeys(eff, speeds);
    RescaledGet(eff, speeds, s);
  }

  /** The rescale succeeds exactly when every speed is a key, and keeps the keys. */
  lemma {:induction false} RescaledKeys(eff: SpeedCurves, speeds: seq<string>)
    ensures Rescaled(eff, speeds).Ok? <==> forall i :: 0 <= i < |speeds| ==> speeds[i] in Keys(eff)
    ensures Rescaled(eff, speeds).Ok? ==> Keys(Rescaled(eff, speeds).value) == Keys(eff)
  {
    if speeds != [] {
      var n := |speeds| - 1;
      var init := speeds[..n];
      var speed := speeds[n];
      RescaledKeys(eff, init);
      AllInSnoc(speeds, init, Keys(eff));
      var r := Rescaled(eff, init);
      if r.Ok? {
        GetKeys(r.value, speed);
        if Get(r.value, speed).Some? {
          SetKeys(r.value, speed, Percent(Get(r.value, speed).value));
        }
      }
    }
  }

  lemma AllInSnoc(s: seq<string>, init: seq<string>, ks: seq<string>)
    requires s != [] && init == s[..|s| - 1]
    ensures (forall i :: 0 <= i < |s| ==> s[i] in ks)
        <==> (forall i :: 0 <= i < |init| ==> init[i] in ks) && s[|s| - 1] in ks
  {
    assert forall i :: 0 <= i < |init| ==> init[i] == s[i];
  }

  /** Each listed speed is rescaled once; the other curves are kept. */
  lemma {:induction false} RescaledGet(eff: SpeedCurves, speeds: seq<string>, s: string)
    requires Distinct(speeds)
    ensures Rescaled(eff, speeds).Ok? ==>
      Get(Rescaled(eff, speeds).value, s) ==
        match Get(eff, s)
        case None => None
        case Some(c) => if s in speeds then Some(Percent(c)) else Some(c)
  {
    if speeds != [] {
      var n := |speeds| - 1;
      var init := speeds[..n];
      var speed := speeds[n];
      assert Distinct(init);
      assert speed !in init;
      assert s in speeds <==> s in init || s == speed;
      RescaledGet(eff, init, s);
      RescaledGet(eff, init, speed);
      var r := Rescaled(eff, init);
      if r.Ok? && Get(r.value, speed).Some? {
        GetSet(r.value, speed, Percent(Get(r.value, speed).value), s);
      }
    }
  }

  /** The rescaling loop. */
  method RescaleEff(eff: SpeedCurves, speeds: seq<string>) returns (r: Result<SpeedCurves>)
    ensures r == Rescaled(eff, speeds)
  {
    var d := eff;
    for i := 0 to |speeds|
      invariant Rescaled(eff, speeds[..i]) == Ok(d)
    {
      assert speeds[..i + 1][..i] == speeds[..i];
      var c := Get(d, speeds[i]);
      if c.None? {
        RescaledFailFrom(eff, speeds, i + 1);
        return Fail(KeyError(speeds[i]));
      }
      d := Set(d, speeds[i], Percent(c.value));
    }
    assert speeds[..|speeds|] == speeds;
    r := Ok(d);
  }

  /** Once a prefix of the speeds fails, the whole rescale fails the same way. */
  lemma {:induction false} RescaledFailFrom(eff: SpeedCurves, speeds: seq<string>, i: nat)
    requires i <= |speeds| && Rescaled(eff, speeds[..i]).Fail?
    ensures Rescaled(eff, speeds) == Rescaled(eff, speeds[..i])
    decreases |speeds|
  {
    if i < |speeds| {
      assert speeds[..|speeds| - 1][..i] == speeds[..i];
      RescaledFailFrom(eff, speeds[..|speeds| - 1], i);
    } else {
      assert speeds[..i] == speeds;
    }
  }

  // ---------------------------------------------------------------------------
  // One speed: a common power loss and the common flow range

  /** What the loop over the curves keeps for one speed. */
  datatype Range = Range(losses: real, minX: real, maxX: real)

  /** The attribute the loss-mismatch message looks up on the speed. */
  const SpeedTo := "to"

  /** The starting flow range of each speed. */
  const Unbounded := Range(0.0, 0.0, 100000000000000000000.0)

  /** One step of the loop: the first curve sets the power losses, a later one
      must agree with them; the range narrows to the curve's first and last flow.
      On a disagreement the source means to raise ValueError, but building its
      message calls `speed.to(...)` on the speed, a dictionary key without that
      method, so AttributeError is what leaves the loop. */
  function Narrow(acc: Range, first: bool, c: CurveData): (r: Result<Range>)
    ensures r.Fail? ==> r.exc == AttributeError(SpeedTo) || r.exc == IndexError
    ensures r == Fail(AttributeError(SpeedTo)) <==> !first && acc.losses != c.x3
    ensures r.Ok? ==>
      && Within(Some(c), r.value) && acc.minX <= r.value.minX && r.value.maxX <= acc.maxX
      && (!first ==> r.value.losses == acc.losses)
  {
    if !first && acc.losses != c.x3 then Fail(AttributeError(SpeedTo))
    else if c.x1 == [] then Fail(IndexError)
    else
      var lo := if c.x1[0] > acc.minX then c.x1[0] else acc.minX;
      var hi := if c.x1[|c.x1| - 1] < acc.maxX then c.x1[|c.x1| - 1] else acc.maxX;
      Ok(Range(if first then c.x3 else acc.losses, lo, hi))
  }

  /** The loop `for n, curve in enumerate(curves)` for one speed, over the first
      curves of the dictionary. */
  function RangeOf(curves: seq<(string, SpeedCurves)>, speed: string): (r: Result<Range>)
    ensures curves == [] ==> r == Ok(Unbounded)
    ensures r.Fail? ==> r.exc in {KeyError(speed), IndexError, AttributeError(SpeedTo)}
  {
    if curves == [] then Ok(Unbounded)
    else
      var acc :- RangeOf(curves[..|curves| - 1], speed);
      match Get(curves[|curves| - 1].1, speed)
      case None => Fail(KeyError(speed))
      case Some(c) => Narrow(acc, |curves| == 1, c)
  }

  /** Every curve has the speed, with at least one flow. */
  predicate Sampled(curves: seq<(string, SpeedCurves)>, speed: string)
  {
    forall i :: 0 <= i < |curves| ==> Get(curves[i].1, speed).Some? && Get(curves[i].1, speed).value.x1 != []
  }

  /** A curve around a range: it has the range's power loss, and its flows start at
      or below the range's lower end and end at or above its upper end. */
  predicate Within(c: Option<CurveData>, r: Range)
  {
    && c.Some? && c.value.x1 != [] && c.value.x3 == r.losses
    && c.value.x1[0] <= r.minX && r.maxX <= c.value.x1[|c.value.x1| - 1]
  }

  /** A successful pass leaves the one power loss every curve gives at that speed,
      and a range inside each curve's flows, inside [0, 1e20]. */
  lemma {:induction false} RangeCommon(curves: seq<(string, SpeedCurves)>, speed: string)
    requires curves != [] && RangeOf(curves, speed).Ok?
    ensures var r := RangeOf(curves, speed).value;
      && 0.0 <= r.minX && r.maxX <= 100000000000000000000.0
      && forall i :: 0 <= i < |curves| ==> Within(Get(curves[i].1, speed), r)
  {
    var n := |curves| - 1;
    var init := curves[..n];
    var c := Get(curves[n].1, speed).value;
    if n > 0 {
      RangeCommon(init, speed);
      forall i | 0 <= i < n ensures Within(Get(curves[i].1, speed), RangeOf(curves, speed).value) {
        assert init[i] == curves[i];
      }
    }
  }

  /** When every curve has the speed with some flows, the pass fails exactly when
      two curves give different power losses at that speed, and then with the
      AttributeError of the message. */
  lemma {:induction false} RangeLosses(curves: seq<(string, SpeedCurves)>, speed: string)
    requires curves != [] && Sampled(curves, speed)
    ensures RangeOf(curves, speed).Ok? <==>
      forall i :: 0 <= i < |curves| ==> Get(curves[i].1, speed).value.x3 == Get(curves[0].1, speed).value.x3
    ensures RangeOf(curves, speed).Fail? ==> RangeOf(curves, speed) == Fail(AttributeError(SpeedTo))
  {
    var n := |curves| - 1;
    var init := curves[..n];
    assert forall i :: 0 <= i < n ==> init[i] == curves[i];
    if n > 0 {
      assert Sampled(init, speed) && init[0] == curves[0];
      RangeLosses(init, speed);
      var c := Get(curves[n].1, speed).value;
      if RangeOf(init, speed).Ok? {
        RangeCommon(init, speed);
        assert Within(Get(init[0].1, speed), RangeOf(init, speed).value);
        assert RangeOf(curves, speed) == Narrow(RangeOf(init, speed).value, false, c);
      } else {
        assert RangeOf(curves, speed) == RangeOf(init, speed);
      }
    }
  }

  /** The loop over the curves for one speed. */
  method SpeedRange(curves: seq<(string, SpeedCurves)>, speed: string) returns (r: Result<Range>)
    ensures r == RangeOf(curves, speed)
  {
    var acc := Unbounded;
    for n := 0 to |curves|
      invariant RangeOf(curves[..n], speed) == Ok(acc)
    {
      assert curves[..n + 1][..n] == curves[..n];
      var c := Get(curves[n].1, speed);
      if c.None? {
        RangeFailFrom(curves, speed, n + 1);
        return Fail(KeyError(speed));
      }
      var next := Narrow(acc, n == 0, c.value);
      if next.Fail? {
        RangeFailFrom(curves, speed, n + 1);
        return next;
      }
      acc := next.value;
    }
    assert curves[..|curves|] == curves;
    r := Ok(acc);
  }

  lemma {:induction false} RangeFailFrom(curves: seq<(string, SpeedCurves)>, speed: string, i: nat)
    requires i <= |curves| && RangeOf(curves[..i], speed).Fail?
    ensures RangeOf(curves, speed) == RangeOf(curves[..i], speed)
    decreases |curves|
  {
    if i < |curves| {
      assert curves[..|curves| - 1][..i] == curves[..i];
      RangeFailFrom(curves[..|curves| - 1], speed, i);
    } else {
      assert curves[..i] == curves;
    }
  }

  // ---------------------------------------------------------------------------
  // load_from_dict, up to the interpolation

  /** The dictionaries and per-speed ranges the interpolation starts from. */
  datatype Prepared = Prepared(curves: Dict<string, SpeedCurves>, ranges: seq<Range>)

  /** One pass of the loop over the speeds: the common range, then the second
      parameter, which must exist. */
  function SpeedStep(curves: Dict<string, SpeedCurves>, speed: string): Result<Range>
  {
    var r :- RangeOf(curves, speed);
    if |curves| < 2 then Fail(IndexError) else Ok(r)
  }

  /** The curves with the efficiencies in fractions. */
  function WithFractions(curves: Dict<string, SpeedCurves>, speeds: seq<string>): (r: Result<Dict<string, SpeedCurves>>)
    ensures Get(curves, "eff").None? ==> r == Ok(curves)
    ensures r.Fail? ==> r.exc == IndexError || r.exc.ValueError? || (r.exc.KeyError? && r.exc.key in speeds)
  {
    match Get(curves, "eff")
    case None => Ok(curves)
    case Some(eff) =>
      var percent :- InPercent(eff, speeds);
      if percent then
        var scaled :- Rescaled(eff, speeds);
        Ok(Set(curves, "eff", scaled))
      else Ok(curves)
  }

  /** `load_from_dict` up to the interpolation: the curves, the first parameter's
      speeds, the rescale and the per-speed checks. */
  function Prepare(args: seq<(string, Option<SpeedCurves>)>): (r: Result<Prepared>)
    ensures Collected(args) == [] ==> r == Fail(IndexError)
    ensures r.Ok? ==> |r.value.ranges| == |Collected(args)[0].1|
  {
    var curves := Collected(args);
    if curves == [] then Fail(IndexError)
    else
      var speeds := Keys(curves[0].1);
      var fractions :- WithFractions(curves, speeds);
      var ranges :- MapAll(speeds, speed => SpeedStep(fractions, speed));
      Ok(Prepared(fractions, ranges))
  }

  /** What a prepared load guarantees: at least two parameters whenever there is a
      speed, one range per speed of the first parameter, and for each speed one
      power loss common to every curve and a flow range inside each curve's flows. */
  lemma PrepareRanges(args: seq<(string, Option<SpeedCurves>)>)
    requires Prepare(args).Ok?
    ensures var p := Prepare(args).value;
      && Collected(args) != []
      && |p.ranges| == |Collected(args)[0].1|
      && (p.ranges != [] ==> |p.curves| >= 2)
      && forall k :: 0 <= k < |p.ranges| ==>
           var speed := Collected(args)[0].1[k].0;
           && p.ranges[k] == RangeOf(p.curves, speed).value
           && forall i :: 0 <= i < |p.curves| ==> Within(Get(p.curves[i].1, speed), p.ranges[k])
  {
    var curves := Collected(args);
    var speeds := Keys(curves[0].1);
    var fractions := WithFractions(curves, speeds).value;
    var p := Prepare(args).value;
    forall k | 0 <= k < |p.ranges|
      ensures forall i :: 0 <= i < |p.curves| ==> Within(Get(p.curves[i].1, speeds[k]), p.ranges[k])
    {
      assert SpeedStep(fractions, speeds[k]).Ok?;
      RangeCommon(fractions, speeds[k]);
    }
  }

  /** Efficiencies in percent are brought to fractions for every speed; the other
      parameters are untouched. */
  lemma PrepareFractions(args: seq<(string, Option<SpeedCurves>)>, s: string)
    requires Prepare(args).Ok?
    requires UniqueKeys(Collected(args)[0].1)
    requires Get(Collected(args), "eff").Some?
    requires InPercent(Get(Collected(args), "eff").value, Keys(Collected(args)[0].1)) == Ok(true)
    ensures var eff := Get(Collected(args), "eff").value;
      Get(Prepare(args).value.curves, "eff").Some?
      && Get(Get(Prepare(args).value.curves, "eff").value, s) ==
         match Get(eff, s)
         case None => None
         case Some(c) => if s in Keys(Collected(args)[0].1) then Some(Percent(c)) else Some(c)
    ensures forall name :: name != "eff" ==> Get(Prepare(args).value.curves, name) == Get(Collected(args), name)
  {
    var curves := Collected(args);
    var speeds := Keys(curves[0].1);
    var eff := Get(curves, "eff").value;
    KeysDistinct(curves[0].1);
    RescaledCurves(eff, speeds, s);
    GetSet(curves, "eff", Rescaled(eff, speeds).value, "eff");
    forall name | name != "eff" ensures Get(Prepare(args).value.curves, name) == Get(curves, name) {
      GetSet(curves, "eff", Rescaled(eff, speeds).value, name);
    }
  }

  lemma KeysDistinct<V>(d: Dict<string, V>)
    requires UniqueKeys(d)
    ensures Distinct(Keys(d))
  {
  }

  /** The efficiency check and the rescaling loop. */
  method Fractions(curves: Dict<string, SpeedCurves>, speeds: seq<string>) returns (r: Result<Dict<string, SpeedCurves>>)
    ensures r == WithFractions(curves, speeds)
  {
    var eff := Get(curves, "eff");
    if eff.None? {
      return Ok(curves);
    }
    var percent := InPercent(eff.value, speeds);
    if percent.Fail? {
      return Fail(percent.exc);
    }
    if !percent.value {
      return Ok(curves);
    }
    var scaled := RescaleEff(eff.value, speeds);
    if scaled.Fail? {
      return Fail(scaled.exc);
    }
    r := Ok(Set(curves, "eff", scaled.value));
  }

  /** `load_from_dict`'s checks, as the loops run them. */
  method LoadFromDict(args: seq<(string, Option<SpeedCurves>)>) returns (r: Result<Prepared>)
    ensures r == Prepare(args)
  {
    var curves := CollectCurves(args);
    if curves == [] {
      return Fail(IndexError);
    }
    var speeds := Keys(curves[0].1);
    var fractions := Fractions(curves, speeds);
    if fractions.Fail? {
      return Fail(fractions.exc);
    }
    curves := fractions.value;
    var ranges := [];
    for k := 0 to |speeds|
      invariant MapAll(speeds[..k], speed => SpeedStep(curves, speed)) == Ok(ranges)
    {
      var range := SpeedRange(curves, speeds[k]);
      if range.Ok? && |curves| < 2 {
        range := Fail(IndexError);
      }
      if range.Fail? {
        MapAllFailFrom(speeds, speed => SpeedStep(curves, speed), k);
        return Fail(range.exc);
      }
      MapAllSnoc(speeds, speed => SpeedStep(curves, speed), k, ranges);
      ranges := ranges + [range.value];
    }
    assert speeds[..|speeds|] == speeds;
    r := Ok(Prepared(curves, ranges));
  }

  // ---------------------------------------------------------------------------
  // load_from_engauge_csv: which curve files are there

  const EngaugeParams := ["head", "eff", "power", "power_shaft", "pressure_ratio", "disch_T"]

  /** `curve_name + f"-{param}.csv"`. */
  function FileName(curveName: string, param: string): string
  {
    curveName + "-" + param + ".csv"
  }

  /** The keys `f"{param}_curves"` of the parameters whose file exists, in order. */
  function FoundKeys(files: set<string>, curveName: string, params: seq<string>): (r: seq<string>)
    ensures |r| <= |params|
  {
    if params == [] then []
    else
      var keys := FoundKeys(files, curveName, params[..|params| - 1]);
      var param := params[|params| - 1];
      if FileName(curveName, param) in files then keys + [param + "_curves"] else keys
  }

  /** `key` is `f"{param}_curves"` for a parameter whose file exists. */
  ghost predicate KeyOfFile(files: set<string>, curveName: string, params: seq<string>, key: string)
  {
    exists i :: 0 <= i < |params| && key == params[i] + "_curves" && FileName(curveName, params[i]) in files
  }

  /** Each found key names a parameter whose file exists, and each parameter whose
      file exists has its key. */
  lemma FoundKeysExact(files: set<string>, curveName: string, params: seq<string>)
    ensures |FoundKeys(files, curveName, params)| <= |params|
    ensures forall k :: 0 <= k < |FoundKeys(files, curveName, params)| ==>
      KeyOfFile(files, curveName, params, FoundKeys(files, curveName, params)[k])
    ensures forall i :: 0 <= i < |params| && FileName(curveName, params[i]) in files ==>
      params[i] + "_curves" in FoundKeys(files, curveName, params)
  {
    var out := FoundKeys(files, curveName, params);
    forall k | 0 <= k < |out| ensures KeyOfFile(files, curveName, params, out[k]) {
      var i := FoundKeyFrom(files, curveName, params, k);
    }
    forall i | 0 <= i < |params| && FileName(curveName, params[i]) in files ensures params[i] + "_curves" in out {
      FoundKeyPresent(files, curveName, params, i);
    }
  }

  /** The parameter a found key comes from. */
  lemma {:induction false} FoundKeyFrom(files: set<string>, curveName: string, params: seq<string>, k: nat)
    returns (i: nat)
    requires k < |FoundKeys(files, curveName, params)|
    ensures i < |params| && FoundKeys(files, curveName, params)[k] == params[i] + "_curves"
    ensures FileName(curveName, params[i]) in files
  {
    var n := |params| - 1;
    var init := params[..n];
    var keys := FoundKeys(files, curveName, init);
    if k < |keys| {
      i := FoundKeyFrom(files, curveName, init, k);
      assert init[i] == params[i];
    } else {
      i := n;
    }
  }

  lemma {:induction false} FoundKeyPresent(files: set<string>, curveName: string, params: seq<string>, i: nat)
    requires i < |params| && FileName(curveName, params[i]) in files
    ensures params[i] + "_curves" in FoundKeys(files, curveName, params)
  {
    var n := |params| - 1;
    var init := params[..n];
    if i < n {
      FoundKeyPresent(files, curveName, init, i);
      assert init[i] == params[i];
    }
  }

  const CountMessage := "There should be 2 curves, currently we have: "

  /** The count check: exactly two curve files, or the ValueError. */
  function EngaugeCurves(files: set<string>, curveName: string): (r: Result<seq<string>>)
    ensures r.Fail? <==> |FoundKeys(files, curveName, EngaugeParams)| != 2
    ensures r.Fail? ==> r.exc == ValueError(CountMessage)
  {
    var keys := FoundKeys(files, curveName, EngaugeParams);
    if |keys| != 2 then Fail(ValueError(CountMessage)) else Ok(keys)
  }

  /** The loop over the six parameters. */
  method FindCurveFiles(files: set<string>, curveName: string) returns (keys: seq<string>)
    ensures keys == FoundKeys(files, curveName, EngaugeParams)
  {
    keys := [];
    var params := EngaugeParams;
    for i := 0 to |params|
      invariant keys == FoundKeys(files, curveName, params[..i])
    {
      assert params[..i + 1][..i] == params[..i];
      if FileName(curveName, params[i]) in files {
        keys := keys + [params[i] + "_curves"];
      }
    }
    assert params[..|params|] == params;
  }

  lemma FoundKeysSnoc(files: set<string>, curveName: string, params: seq<string>, k: nat)
    requires k < |params|
    ensures FoundKeys(files, curveName, params[..k + 1]) ==
      FoundKeys(files, curveName, params[..k])
        + if FileName(curveName, params[k]) in files then [params[k] + "_curves"] else []
  {
    assert params[..k + 1][..k] == params[..k];
  }

  /** A file name whose parameter is neither "head" nor "eff" long is neither of
      their files. */
  lemma Unlisted(curveName: string, param: string)
    requires |param| != 4 && |param| != 3
    ensures FileName(curveName, param) != FileName(curveName, "head")
    ensures FileName(curveName, param) != FileName(curveName, "eff")
  {
  }

  /** With the head and efficiency files alone, the curves loaded are head and
      efficiency, in that order. */
  lemma HeadAndEff(curveName: string)
    ensures EngaugeCurves({FileName(curveName, "head"), FileName(curveName, "eff")}, curveName)
      == Ok(["head_curves", "eff_curves"])
  {
    var files := {FileName(curveName, "head"), FileName(curveName, "eff")};
    var ps := EngaugeParams;
    assert ps[..0] == [];
    assert ps[0] == "head" && ps[1] == "eff";
    assert FileName(curveName, ps[0]) in files && FileName(curveName, ps[1]) in files;
    FoundKeysSnoc(files, curveName, ps, 0);
    assert FoundKeys(files, curveName, ps[..0]) == [];
    assert "head" + "_curves" == "head_curves";
    assert FoundKeys(files, curveName, ps[..1]) == ["head_curves"];
    FoundKeysSnoc(files, curveName, ps, 1);
    assert "eff" + "_curves" == "eff_curves";
    assert FoundKeys(files, curveName, ps[..2]) == ["head_curves", "eff_curves"];
    for k := 2 to 6
      invariant FoundKeys(files, curveName, ps[..k]) == ["head_curves", "eff_curves"]
    {
      FoundKeysSnoc(files, curveName, ps, k);
      Unlisted(curveName, ps[k]);
    }
    assert ps[..6] == ps;
  }

  // ---------------------------------------------------------------------------
  // load_from_dict_isis: the isis format

  datatype IsisPoint = IsisPoint(x: real, y: real)

  /** One isis curve: its speed `z` and its points. */
  datatype IsisCurve<Z> = IsisCurve(z: Z, points: seq<IsisPoint>)

  function Xs(points: seq<IsisPoint>): (r: seq<real>)
    ensures |r| == |points| && forall i :: 0 <= i < |points| ==> r[i] == points[i].x
  {
    seq(|points|, i requires 0 <= i < |points| => points[i].x)
  }

  function Ys(points: seq<IsisPoint>): (r: seq<real>)
    ensures |r| == |points| && forall i :: 0 <= i < |points| ==> r[i] == points[i].y
  {
    seq(|points|, i requires 0 <= i < |points| => points[i].y)
  }

  /** The assignments the conversion makes, one per isis curve, in order; `str`
      renders a speed as Python's `str` does. */
  function IsisEntries<Z>(curves: seq<IsisCurve<Z>>, str: Z -> string): (es: seq<(string, CurveData)>)
    ensures |es| == |curves|
    ensures forall n :: 0 <= n < |curves| ==>
      es[n] == (str(curves[n].z), CurveData(Xs(curves[n].points), Ys(curves[n].points), 0.0))
  {
    seq(|curves|, n requires 0 <= n < |curves| =>
      (str(curves[n].z), CurveData(Xs(curves[n].points), Ys(curves[n].points), 0.0)))
  }

  /** The inner loop: the flows and values of one curve's points. */
  method Coordinates(points: seq<IsisPoint>) returns (x: seq<real>, y: seq<real>)
    ensures x == Xs(points) && y == Ys(points)
  {
    x, y := [], [];
    for i := 0 to |points|
      invariant x == Xs(points[..i]) && y == Ys(points[..i])
    {
      x := x + [points[i].x];
      y := y + [points[i].y];
    }
    assert points[..|points|] == points;
  }

  /** The outer loop: `curve_ccp[str(z)] = {x1: xs, x2: ys, x3: 0}` per curve. */
  method IsisToCcp<Z>(curves: seq<IsisCurve<Z>>, str: Z -> string) returns (d: SpeedCurves)
    ensures d == SetAll([], IsisEntries(curves, str))
  {
    d := [];
    var es := IsisEntries(curves, str);
    for n := 0 to |curves|
      invariant d == SetAll([], es[..n])
    {
      SetAllSnoc([], es, n);
      var x, y := Coordinates(curves[n].points);
      d := Set(d, str(curves[n].z), CurveData(x, y, 0.0));
    }
    assert es[..|curves|] == es;
  }

  /** The curve whose speed no later curve repeats is found under its speed with
      its points' flows and values in order and no power losses; a speed no curve
      has is absent. */
  lemma IsisLookup<Z>(curves: seq<IsisCurve<Z>>, str: Z -> string, n: nat, key: string)
    requires n < |curves| && forall m :: n < m < |curves| ==> str(curves[m].z) != str(curves[n].z)
    ensures var d := SetAll([], IsisEntries(curves, str));
      && Get(d, str(curves[n].z)) == Some(CurveData(Xs(curves[n].points), Ys(curves[n].points), 0.0))
      && ((forall m :: 0 <= m < |curves| ==> str(curves[m].z) != key) ==> Get(d, key) == None)
  {
    var es := IsisEntries(curves, str);
    GetSetAllLast([], es, n);
    if forall m :: 0 <= m < |curves| ==> str(curves[m].z) != key {
      GetSetAllOther([], es, key);
    }
  }
}
