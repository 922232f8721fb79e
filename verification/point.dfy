/** An operating point of a compressor (ccp/point.py). The constructor checks the
    impeller geometry, looks up the polytropic routines and picks one of its
    `_calc_from_*` routines from the names of the arguments it was given; the
    dimensionless coefficients, power and the PTC 10 departure limits are closed-form
    expressions over the magnitudes in SI units. The thermodynamics of the routines
    (head, efficiency, discharge state) is CoolProp's and is passed in as values. */
module Point {
  import opened Wrappers
  import opened Text
  import opened Sorting

  /** `np.pi`. */
  const Pi: real := 3.141592653589793

  // ---------------------------------------------------------------------------
  // Selecting the calculation routine

  /** A constructor argument: missing (`None`), a thermodynamic state, or a quantity
      given by its magnitude. */
  datatype Arg = NoArg | StateArg | Quantity(m: real)

  /** Python truth: a state is true, `None` is false and a quantity is true when its
      magnitude is not zero. */
  predicate Truthy(a: Arg)
  {
    a.StateArg? || (a.Quantity? && a.m != 0.0)
  }

  datatype Inputs = Inputs(
    suc: Arg, disch: Arg, disch_p: Arg, flow_v: Arg, flow_m: Arg, speed: Arg,
    head: Arg, eff: Arg, power: Arg, phi: Arg, psi: Arg, volume_ratio: Arg,
    b: Arg, D: Arg)

  const Suc := "suc"
  const Disch := "disch"
  const DischP := "disch_p"
  const FlowV := "flow_v"
  const FlowM := "flow_m"
  const Speed := "speed"
  const Head := "head"
  const Eff := "eff"
  const Power := "power"
  const PhiName := "phi"
  const PsiName := "psi"
  const VolumeRatio := "volume_ratio"

  /** The names the constructor inspects, in the order it inspects them. */
  function Names(): seq<string>
  {
    [Suc, Disch, DischP, FlowV, FlowM, Speed, Head, Eff, Power, PhiName, PsiName, VolumeRatio]
  }

  /** The values under those names. */
  function Fields(a: Inputs): (r: seq<Arg>)
    ensures |r| == |Names()|
  {
    [a.suc, a.disch, a.disch_p, a.flow_v, a.flow_m, a.speed, a.head, a.eff, a.power, a.phi, a.psi, a.volume_ratio]
  }

  /** `r` is `s` with some elements left out and the others in their order. */
  predicate SubsequenceOf(r: seq<string>, s: seq<string>)
  {
    if r == [] then true
    else if s == [] then false
    else
      || SubsequenceOf(r, s[..|s| - 1])
      || (r[|r| - 1] == s[|s| - 1] && SubsequenceOf(r[..|r| - 1], s[..|s| - 1]))
  }

  /** The names whose value is true, in the order of `names`. */
  function Kwargs(names: seq<string>, args: seq<Arg>): (r: seq<string>)
    requires |names| == |args|
    ensures |r| <= |names|
    ensures SubsequenceOf(r, names)
  {
    if names == [] then []
    else
      var k := |names| - 1;
      var init := Kwargs(names[..k], args[..k]);
      if Truthy(args[k]) then
        assert (init + [names[k]])[..|init|] == init;
        init + [names[k]]
      else init
  }

  /** A name is a keyword exactly when its value is true. */
  lemma {:induction false} KwargsMembers(names: seq<string>, args: seq<Arg>, n: string)
    requires |names| == |args|
    ensures n in Kwargs(names, args) <==> exists i :: 0 <= i < |names| && names[i] == n && Truthy(args[i])
  {
    if names != [] {
      var k := |names| - 1;
      KwargsMembers(names[..k], args[..k], n);
      assert forall i :: 0 <= i < k ==> names[..k][i] == names[i] && args[..k][i] == args[i];
    }
  }

  predicate Distinct(s: seq<string>)
  {
    forall i, j :: 0 <= i < j < |s| ==> s[i] != s[j]
  }

  /** Distinct names give distinct keyword names. */
  lemma {:induction false} KwargsDistinct(names: seq<string>, args: seq<Arg>)
    requires |names| == |args| && Distinct(names)
    ensures Distinct(Kwargs(names, args))
  {
    if names != [] {
      var k := |names| - 1;
      assert Distinct(names[..k]);
      KwargsDistinct(names[..k], args[..k]);
      var init := Kwargs(names[..k], args[..k]);
      if Truthy(args[k]) {
        KwargsMembers(names[..k], args[..k], names[k]);
        assert names[k] !in init;
        var r := init + [names[k]];
        forall i, j | 0 <= i < j < |r| ensures r[i] != r[j] {
          if j < |init| {
            assert r[i] == init[i] && r[j] == init[j];
          } else {
            assert r[i] == init[i] && r[i] in init;
          }
        }
      }
    }
  }

  /** Python's ordering of strings: by code point, a proper prefix first. */
  predicate LessEq(a: string, b: string)
  {
    if a == [] then true
    else if b == [] then false
    else if a[0] != b[0] then a[0] < b[0]
    else LessEq(a[1..], b[1..])
  }

  lemma {:induction false} LessEqTotal(a: string, b: string)
    ensures LessEq(a, b) || LessEq(b, a)
  {
    if a != [] && b != [] && a[0] == b[0] {
      LessEqTotal(a[1..], b[1..]);
    }
  }

  lemma {:induction false} LessEqTransitive(a: string, b: string, c: string)
    requires LessEq(a, b) && LessEq(b, c)
    ensures LessEq(a, c)
  {
    if a != [] && b != [] && c != [] && a[0] == b[0] && b[0] == c[0] {
      LessEqTransitive(a[1..], b[1..], c[1..]);
    }
  }

  lemma {:induction false} LessEqAntisymmetric(a: string, b: string)
    requires LessEq(a, b) && LessEq(b, a)
    ensures a == b
  {
    if a != [] && b != [] {
      LessEqAntisymmetric(a[1..], b[1..]);
      assert a == [a[0]] + a[1..] && b == [b[0]] + b[1..];
    }
  }

  lemma StringOrder()
    ensures TotalPreorder(LessEq) && Antisymmetric(LessEq)
  {
    forall a, b ensures LessEq(a, b) || LessEq(b, a) {
      LessEqTotal(a, b);
    }
    forall a, b, c | LessEq(a, b) && LessEq(b, c) ensures LessEq(a, c) {
      LessEqTransitive(a, b, c);
    }
    forall a, b | LessEq(a, b) && LessEq(b, a) ensures a == b {
      LessEqAntisymmetric(a, b);
    }
  }

  const CalcPrefix := "_calc_from_"

  /** The name of the routine for these keyword names: `"_calc_from_" +
      "_".join(sorted(kwargs_list))`. */
  function RoutineName(kwargs: seq<string>): string
  {
    CalcPrefix + Join(SortBy(kwargs, LessEq), "_")
  }

  /** The name depends on which names were given, not on their order. */
  lemma OrderIndependent(xs: seq<string>, ys: seq<string>)
    requires multiset(xs) == multiset(ys)
    ensures RoutineName(xs) == RoutineName(ys)
  {
    StringOrder();
    SortByPermutation(xs, LessEq);
    SortByPermutation(ys, LessEq);
    SortBySorted(xs, LessEq);
    SortBySorted(ys, LessEq);
    SortedUnique(SortBy(xs, LessEq), SortBy(ys, LessEq), LessEq);
  }

  /** The routines `Point` defines. */
  datatype Routine =
    | FromDischFlowVSpeedSuc
    | FromDischFlowMSpeedSuc
    | FromEffPhiPsiSucVolumeRatio
    | FromEffFlowVHeadSpeedSuc
    | FromEffFlowMHeadSpeedSuc
    | FromEffPhiPsiSpeedSuc
    | FromDischPEffFlowVSpeedSuc
    | FromDischPEffFlowMSpeedSuc

  /** The names each routine is called for, in sorted order. */
  function Parts(r: Routine): seq<string>
  {
    match r
    case FromDischFlowVSpeedSuc => [Disch, FlowV, Speed, Suc]
    case FromDischFlowMSpeedSuc => [Disch, FlowM, Speed, Suc]
    case FromEffPhiPsiSucVolumeRatio => [Eff, PhiName, PsiName, Suc, VolumeRatio]
    case FromEffFlowVHeadSpeedSuc => [Eff, FlowV, Head, Speed, Suc]
    case FromEffFlowMHeadSpeedSuc => [Eff, FlowM, Head, Speed, Suc]
    case FromEffPhiPsiSpeedSuc => [Eff, PhiName, PsiName, Speed, Suc]
    case FromDischPEffFlowVSpeedSuc => [DischP, Eff, FlowV, Speed, Suc]
    case FromDischPEffFlowMSpeedSuc => [DischP, Eff, FlowM, Speed, Suc]
  }

  /** The routine's method name after `_calc_from_`. */
  function RoutineSuffix(r: Routine): string
  {
    match r
    case FromDischFlowVSpeedSuc => "disch_flow_v_speed_suc"
    case FromDischFlowMSpeedSuc => "disch_flow_m_speed_suc"
    case FromEffPhiPsiSucVolumeRatio => "eff_phi_psi_suc_volume_ratio"
    case FromEffFlowVHeadSpeedSuc => "eff_flow_v_head_speed_suc"
    case FromEffFlowMHeadSpeedSuc => "eff_flow_m_head_speed_suc"
    case FromEffPhiPsiSpeedSuc => "eff_phi_psi_speed_suc"
    case FromDischPEffFlowVSpeedSuc => "disch_p_eff_flow_v_speed_suc"
    case FromDischPEffFlowMSpeedSuc => "disch_p_eff_flow_m_speed_suc"
  }

  /** The routine's method name. */
  function RoutineString(r: Routine): string
  {
    CalcPrefix + RoutineSuffix(r)
  }

  /** `getattr(self, name)` for a routine name: the routine of that name, if any. */
  function RoutineNamed(name: string): (r: Option<Routine>)
    ensures r.Some? ==> RoutineString(r.value) == name
  {
    if name == RoutineString(FromDischFlowVSpeedSuc) then Some(FromDischFlowVSpeedSuc)
    else if name == RoutineString(FromDischFlowMSpeedSuc) then Some(FromDischFlowMSpeedSuc)
    else if name == RoutineString(FromEffPhiPsiSucVolumeRatio) then Some(FromEffPhiPsiSucVolumeRatio)
    else if name == RoutineString(FromEffFlowVHeadSpeedSuc) then Some(FromEffFlowVHeadSpeedSuc)
    else if name == RoutineString(FromEffFlowMHeadSpeedSuc) then Some(FromEffFlowMHeadSpeedSuc)
    else if name == RoutineString(FromEffPhiPsiSpeedSuc) then Some(FromEffPhiPsiSpeedSuc)
    else if name == RoutineString(FromDischPEffFlowVSpeedSuc) then Some(FromDischPEffFlowVSpeedSuc)
    else if name == RoutineString(FromDischPEffFlowMSpeedSuc) then Some(FromDischPEffFlowMSpeedSuc)
    else None
  }

  /** Every routine is found under its own name. */
  lemma RoutineNamedInverse(r: Routine)
    ensures RoutineNamed(RoutineString(r)) == Some(r)
  {
    // The lookup tries the routines in order; every earlier one has another name.
    match r
    case FromDischFlowVSpeedSuc =>
    case FromDischFlowMSpeedSuc =>
      NamesDiffer(FromDischFlowVSpeedSuc, r);
    case FromEffPhiPsiSucVolumeRatio =>
      NamesDiffer(FromDischFlowVSpeedSuc, r);
      NamesDiffer(FromDischFlowMSpeedSuc, r);
    case FromEffFlowVHeadSpeedSuc =>
      NamesDiffer(FromDischFlowVSpeedSuc, r);
      NamesDiffer(FromDischFlowMSpeedSuc, r);
      NamesDiffer(FromEffPhiPsiSucVolumeRatio, r);
    case FromEffFlowMHeadSpeedSuc =>
      NamesDiffer(FromDischFlowVSpeedSuc, r);
      NamesDiffer(FromDischFlowMSpeedSuc, r);
      NamesDiffer(FromEffPhiPsiSucVolumeRatio, r);
      NamesDiffer(FromEffFlowVHeadSpeedSuc, r);
    case FromEffPhiPsiSpeedSuc =>
      NamesDiffer(FromDischFlowVSpeedSuc, r);
      NamesDiffer(FromDischFlowMSpeedSuc, r);
      NamesDiffer(FromEffPhiPsiSucVolumeRatio, r);
      NamesDiffer(FromEffFlowVHeadSpeedSuc, r);
      NamesDiffer(FromEffFlowMHeadSpeedSuc, r);
    case FromDischPEffFlowVSpeedSuc =>
      NamesDiffer(FromDischFlowVSpeedSuc, r);
      NamesDiffer(FromDischFlowMSpeedSuc, r);
      NamesDiffer(FromEffPhiPsiSucVolumeRatio, r);
      NamesDiffer(FromEffFlowVHeadSpeedSuc, r);
      NamesDiffer(FromEffFlowMHeadSpeedSuc, r);
      NamesDiffer(FromEffPhiPsiSpeedSuc, r);
    case FromDischPEffFlowMSpeedSuc =>
      NamesDiffer(FromDischFlowVSpeedSuc, r);
      NamesDiffer(FromDischFlowMSpeedSuc, r);
      NamesDiffer(FromEffPhiPsiSucVolumeRatio, r);
      NamesDiffer(FromEffFlowVHeadSpeedSuc, r);
      NamesDiffer(FromEffFlowMHeadSpeedSuc, r);
      NamesDiffer(FromEffPhiPsiSpeedSuc, r);
      NamesDiffer(FromDischPEffFlowVSpeedSuc, r);
  }

  lemma NamesDiffer(q: Routine, r: Routine)
    requires q != r
    ensures RoutineString(q) != RoutineString(r)
  {
    SuffixesDiffer(q, r);
    PrefixKeepsDifference(CalcPrefix, RoutineSuffix(q), RoutineSuffix(r));
  }

  /** Two routines have different names: no two suffixes share their length and
      their characters at 0, 9, 11 and 17. */
  lemma SuffixesDiffer(q: Routine, r: Routine)
    requires q != r
    ensures RoutineSuffix(q) != RoutineSuffix(r)
  {
    var x, y := RoutineSuffix(q), RoutineSuffix(r);
    assert |x| != |y| || x[0] != y[0] || x[9] != y[9] || x[11] != y[11] || x[17] != y[17];
  }

  lemma PrefixKeepsDifference(p: string, a: string, b: string)
    requires a != b
    ensures p + a != p + b
  {
    assert (p + a)[|p|..] == a && (p + b)[|p|..] == b;
  }

  /** The polytropic methods with both a `head_pol_*` and an `eff_pol_*` function. */
  function PolytropicMethods(): seq<string>
  {
    ["schultz", "mallen_saville", "sandberg_colby", "huntington"]
  }

  const GeometryMessage := "Arguments b and D must be provided."

  /** The polytropic method the constructor uses: the one given, or the configured
      default. */
  function MethodOf(polytropic: Option<string>, configured: string): string
  {
    if polytropic.Some? then polytropic.value else configured
  }

  /** What the constructor does up to the routine call: the geometry check, the
      lookup of `head_pol_<method>` in the module's globals, and the routine lookup
      by the name built from the true arguments. */
  function Selection(a: Inputs, polytropic: Option<string>, configured: string): (r: Result<Routine>)
    ensures r.Fail? ==> r.exc.ValueError? || r.exc.KeyError? || r.exc.AttributeError?
    ensures r.Fail? && r.exc.ValueError? <==> a.b.NoArg? || a.D.NoArg?
    ensures r.Fail? && r.exc.KeyError? <==>
      !(a.b.NoArg? || a.D.NoArg?) && MethodOf(polytropic, configured) !in PolytropicMethods()
    ensures r.Fail? && r.exc.KeyError? ==> r.exc.key == "head_pol_" + MethodOf(polytropic, configured)
    ensures r.Fail? && r.exc.AttributeError? ==> r.exc.name == RoutineName(Kwargs(Names(), Fields(a)))
    ensures r.Ok? <==>
      && !(a.b.NoArg? || a.D.NoArg?) && MethodOf(polytropic, configured) in PolytropicMethods()
      && RoutineNamed(RoutineName(Kwargs(Names(), Fields(a)))).Some?
    ensures r.Ok? ==> RoutineName(Kwargs(Names(), Fields(a))) == RoutineString(r.value)
  {
    if a.b.NoArg? || a.D.NoArg? then Fail(ValueError(GeometryMessage))
    else
      var m := MethodOf(polytropic, configured);
      if m !in PolytropicMethods() then Fail(KeyError("head_pol_" + m))
      else
        var name := RoutineName(Kwargs(Names(), Fields(a)));
        match RoutineNamed(name)
        case Some(r) => Ok(r)
        case None => Fail(AttributeError(name))
  }

  /** `Point.__init__` up to the routine call: the loop that collects the names of
      the true arguments, then the dispatch. */
  method Select(a: Inputs, polytropic: Option<string>, configured: string) returns (r: Result<Routine>)
    ensures r == Selection(a, polytropic, configured)
  {
    if a.b.NoArg? || a.D.NoArg? {
      return Fail(ValueError(GeometryMessage));
    }
    var m := MethodOf(polytropic, configured);
    if m !in PolytropicMethods() {
      return Fail(KeyError("head_pol_" + m));
    }
    var names := Names();
    var fields := Fields(a);
    var kwargsList: seq<string> := [];
    for i := 0 to |names|
      invariant kwargsList == Kwargs(names[..i], fields[..i])
    {
      assert names[..i + 1][..i] == names[..i] && fields[..i + 1][..i] == fields[..i];
      if Truthy(fields[i]) {
        kwargsList := kwargsList + [names[i]];
      }
    }
    assert names[..|names|] == names && fields[..|fields|] == fields;
    var name := CalcPrefix + Join(SortBy(kwargsList, LessEq), "_");
    match RoutineNamed(name)
    case Some(routine) => r := Ok(routine);
    case None => r := Fail(AttributeError(name));
  }

  /** Sorting a permutation of a routine's names gives those names back. */
  lemma PartsSorted(r: Routine, kwargs: seq<string>)
    requires SortedBy(Parts(r), LessEq)
    requires multiset(kwargs) == multiset(Parts(r))
    ensures SortBy(kwargs, LessEq) == Parts(r)
  {
    StringOrder();
    SortByPermutation(kwargs, LessEq);
    SortBySorted(kwargs, LessEq);
    SortedUnique(SortBy(kwargs, LessEq), Parts(r), LessEq);
  }

  lemma DischargeSorted()
    ensures SortedBy(Parts(FromDischFlowVSpeedSuc), LessEq)
  {
    StringOrder();
    assert LessEq(Disch, FlowV) && LessEq(FlowV, Speed) && LessEq(Speed, Suc);
    SortedByAdjacent(Parts(FromDischFlowVSpeedSuc), LessEq);
  }

  lemma DischargeJoin()
    ensures Join(Parts(FromDischFlowVSpeedSuc), "_") == "disch_flow_v_speed_suc"
  {
    JoinFour(Disch, FlowV, Speed, Suc, "_");
  }

  lemma DischargeName()
    ensures CalcPrefix + Join(Parts(FromDischFlowVSpeedSuc), "_") == RoutineString(FromDischFlowVSpeedSuc)
  {
    DischargeJoin();
  }

  /** Suction, discharge, volume flow and speed, given in any order, select
      `_calc_from_disch_flow_v_speed_suc`. */
  lemma DischargeRoutine(kwargs: seq<string>)
    requires multiset(kwargs) == multiset([Suc, Disch, FlowV, Speed])
    ensures RoutineNamed(RoutineName(kwargs)) == Some(FromDischFlowVSpeedSuc)
  {
    DischargeSorted();
    PartsSorted(FromDischFlowVSpeedSuc, kwargs);
    DischargeName();
    RoutineNamedInverse(FromDischFlowVSpeedSuc);
  }

  // ---------------------------------------------------------------------------
  // Converting a point to other suction conditions

  /** The arguments `convert_from` passes to the constructor: `find` names the
      unknown, speed or volume ratio; the speed defaults to the original's. */
  function ConvertOptions(original: Inputs, suc: Arg, find: string, speed: Arg): (r: Result<Inputs>)
    ensures r.Ok? <==> find == Speed || find == VolumeRatio
    ensures r.Fail? ==> r.exc == KeyError(find)
    ensures r.Ok? ==> (r.value.suc == suc && r.value.eff == original.eff && r.value.phi == original.phi
      && r.value.psi == original.psi && r.value.b == original.b && r.value.D == original.D)
    ensures r.Ok? ==> (r.value.disch.NoArg? && r.value.disch_p.NoArg? && r.value.flow_v.NoArg?
      && r.value.flow_m.NoArg? && r.value.head.NoArg? && r.value.power.NoArg?)
    ensures find == Speed ==> r.Ok? && r.value.speed.NoArg? && r.value.volume_ratio == original.volume_ratio
    ensures find == VolumeRatio ==> (r.Ok? && r.value.volume_ratio.NoArg?
      && r.value.speed == (if speed.NoArg? then original.speed else speed))
  {
    var speed' := if speed.NoArg? then original.speed else speed;
    if find == Speed then
      Ok(Inputs(suc, NoArg, NoArg, NoArg, NoArg, NoArg, NoArg, original.eff, NoArg,
        original.phi, original.psi, original.volume_ratio, original.b, original.D))
    else if find == VolumeRatio then
      Ok(Inputs(suc, NoArg, NoArg, NoArg, NoArg, speed', NoArg, original.eff, NoArg,
        original.phi, original.psi, NoArg, original.b, original.D))
    else Fail(KeyError(find))
  }

  /** In a sequence without repetitions every member occurs once. */
  lemma {:induction false} DistinctCount(xs: seq<string>, n: string)
    requires Distinct(xs)
    ensures multiset(xs)[n] == if n in xs then 1 else 0
  {
    if xs != [] {
      var rest := xs[1..];
      assert xs == [xs[0]] + rest;
      assert Distinct(rest) by {
        forall p, q | 0 <= p < q < |rest| ensures rest[p] != rest[q] {
          assert rest[p] == xs[p + 1] && rest[q] == xs[q + 1];
        }
      }
      DistinctCount(rest, n);
      if n == xs[0] {
        forall k | 0 <= k < |rest| ensures rest[k] != n {
          assert rest[k] == xs[k + 1];
        }
      }
    }
  }

  /** Two sequences without repetitions and with the same members are permutations of
      each other. */
  lemma SameMembers(xs: seq<string>, ys: seq<string>)
    requires Distinct(xs) && Distinct(ys)
    requires forall n :: n in xs <==> n in ys
    ensures multiset(xs) == multiset(ys)
  {
    forall n ensures multiset(xs)[n] == multiset(ys)[n] {
      DistinctCount(xs, n);
      DistinctCount(ys, n);
    }
  }

  /** The names of the true fields are exactly those of a routine when the routine's
      fields are true and all others false. */
  lemma KwargsOfRoutine(a: Inputs, r: Routine)
    requires forall i :: 0 <= i < |Names()| ==> (Truthy(Fields(a)[i]) <==> Names()[i] in Parts(r))
    ensures multiset(Kwargs(Names(), Fields(a))) == multiset(Parts(r))
  {
    var names, fields := Names(), Fields(a);
    var kw := Kwargs(names, fields);
    assert Distinct(kw) by {
      NamesDistinct();
      KwargsDistinct(names, fields);
    }
    assert forall n :: n in kw <==> n in Parts(r) by {
      forall n ensures n in kw <==> n in Parts(r) {
        KwargsMembers(names, fields, n);
        if n in Parts(r) {
          var i := NameIndex(r, n);
          assert names[i] == n && Truthy(fields[i]);
        }
      }
    }
    PartsDistinct(r);
    SameMembers(kw, Parts(r));
  }

  /** No routine lists a name twice. */
  lemma PartsDistinct(r: Routine)
    ensures Distinct(Parts(r))
  {
    var parts := Parts(r);
    forall i, j | 0 <= i < j < |parts| ensures parts[i] != parts[j] {
      var x, y := parts[i], parts[j];
      assert |x| != |y| || x[0] != y[0] || x[1] != y[1] || x[|x| - 1] != y[|y| - 1];
    }
  }

  /** The argument names differ from each other: no two share their length and
      their first, second and last characters. */
  lemma NamesDistinct()
    ensures Distinct(Names())
  {
    var names := Names();
    forall i, j | 0 <= i < j < |names| ensures names[i] != names[j] {
      var x, y := names[i], names[j];
      assert |x| != |y| || x[0] != y[0] || x[1] != y[1] || x[|x| - 1] != y[|y| - 1];
    }
  }

  /** Every name a routine is called for is one of the argument names. */
  lemma NameIndex(r: Routine, n: string) returns (i: nat)
    requires n in Parts(r)
    ensures i < |Names()| && Names()[i] == n
  {
    var names := Names();
    if n == Suc { i := 0; }
    else if n == Disch { i := 1; }
    else if n == DischP { i := 2; }
    else if n == FlowV { i := 3; }
    else if n == FlowM { i := 4; }
    else if n == Speed { i := 5; }
    else if n == Head { i := 6; }
    else if n == Eff { i := 7; }
    else if n == PhiName { i := 9; }
    else if n == PsiName { i := 10; }
    else { i := 11; }
  }

  lemma SpeedSearchSorted()
    ensures SortedBy(Parts(FromEffPhiPsiSucVolumeRatio), LessEq)
  {
    StringOrder();
    assert LessEq(Eff, PhiName) && LessEq(PhiName, PsiName) && LessEq(PsiName, Suc) && LessEq(Suc, VolumeRatio);
    SortedByAdjacent(Parts(FromEffPhiPsiSucVolumeRatio), LessEq);
  }

  lemma SpeedSearchJoin()
    ensures Join(Parts(FromEffPhiPsiSucVolumeRatio), "_") == "eff_phi_psi_suc_volume_ratio"
  {
    JoinFive(Eff, PhiName, PsiName, Suc, VolumeRatio, "_");
  }

  lemma SpeedSearchName()
    ensures CalcPrefix + Join(Parts(FromEffPhiPsiSucVolumeRatio), "_") == RoutineString(FromEffPhiPsiSucVolumeRatio)
  {
    SpeedSearchJoin();
  }

  lemma SpeedSearchFields(a: Inputs)
    requires Truthy(a.suc) && Truthy(a.eff) && Truthy(a.phi) && Truthy(a.psi) && Truthy(a.volume_ratio)
    requires a.disch.NoArg? && a.disch_p.NoArg? && a.flow_v.NoArg? && a.flow_m.NoArg?
    requires a.speed.NoArg? && a.head.NoArg? && a.power.NoArg?
    ensures multiset(Kwargs(Names(), Fields(a))) == multiset(Parts(FromEffPhiPsiSucVolumeRatio))
  {
    KwargsOfRoutine(a, FromEffPhiPsiSucVolumeRatio);
  }

  /** Converting at the original's efficiency, coefficients and volume ratio calls
      `_calc_from_eff_phi_psi_suc_volume_ratio`, which solves for the speed. */
  lemma ConvertFindingSpeed(original: Inputs, suc: Arg, speed: Arg, configured: string)
    requires suc.StateArg? && Truthy(original.eff) && Truthy(original.phi) && Truthy(original.psi)
    requires Truthy(original.volume_ratio) && !original.b.NoArg? && !original.D.NoArg?
    requires configured in PolytropicMethods()
    ensures Selection(ConvertOptions(original, suc, Speed, speed).value, None, configured) == Ok(FromEffPhiPsiSucVolumeRatio)
  {
    var a := ConvertOptions(original, suc, Speed, speed).value;
    SpeedSearchFields(a);
    SpeedSearchSorted();
    PartsSorted(FromEffPhiPsiSucVolumeRatio, Kwargs(Names(), Fields(a)));
    SpeedSearchName();
    RoutineNamedInverse(FromEffPhiPsiSucVolumeRatio);
  }

  lemma VolumeRatioSearchSorted()
    ensures SortedBy(Parts(FromEffPhiPsiSpeedSuc), LessEq)
  {
    StringOrder();
    assert LessEq(Eff, PhiName) && LessEq(PhiName, PsiName) && LessEq(PsiName, Speed) && LessEq(Speed, Suc);
    SortedByAdjacent(Parts(FromEffPhiPsiSpeedSuc), LessEq);
  }

  lemma VolumeRatioSearchJoin()
    ensures Join(Parts(FromEffPhiPsiSpeedSuc), "_") == "eff_phi_psi_speed_suc"
  {
    JoinFive(Eff, PhiName, PsiName, Speed, Suc, "_");
  }

  lemma VolumeRatioSearchName()
    ensures CalcPrefix + Join(Parts(FromEffPhiPsiSpeedSuc), "_") == RoutineString(FromEffPhiPsiSpeedSuc)
  {
    VolumeRatioSearchJoin();
  }

  lemma VolumeRatioSearchFields(a: Inputs)
    requires Truthy(a.suc) && Truthy(a.eff) && Truthy(a.phi) && Truthy(a.psi) && Truthy(a.speed)
    requires a.disch.NoArg? && a.disch_p.NoArg? && a.flow_v.NoArg? && a.flow_m.NoArg?
    requires a.volume_ratio.NoArg? && a.head.NoArg? && a.power.NoArg?
    ensures multiset(Kwargs(Names(), Fields(a))) == multiset(Parts(FromEffPhiPsiSpeedSuc))
  {
    KwargsOfRoutine(a, FromEffPhiPsiSpeedSuc);
  }

  /** Converting at a known speed calls `_calc_from_eff_phi_psi_speed_suc`, which
      solves for the volume ratio. */
  lemma ConvertFindingVolumeRatio(original: Inputs, suc: Arg, speed: Arg, configured: string)
    requires suc.StateArg? && Truthy(original.eff) && Truthy(original.phi) && Truthy(original.psi)
    requires Truthy(if speed.NoArg? then original.speed else speed)
    requires !original.b.NoArg? && !original.D.NoArg? && configured in PolytropicMethods()
    ensures Selection(ConvertOptions(original, suc, VolumeRatio, speed).value, None, configured) == Ok(FromEffPhiPsiSpeedSuc)
  {
    var a := ConvertOptions(original, suc, VolumeRatio, speed).value;
    VolumeRatioSearchFields(a);
    VolumeRatioSearchSorted();
    PartsSorted(FromEffPhiPsiSpeedSuc, Kwargs(Names(), Fields(a)));
    VolumeRatioSearchName();
    RoutineNamedInverse(FromEffPhiPsiSpeedSuc);
  }

  // ---------------------------------------------------------------------------
  // Coefficients and power

  /** `u_calc`: the impeller tip speed. */
  function TipSpeed(D: real, speed: real): (u: real)
    ensures D > 0.0 && speed > 0.0 ==> u > 0.0
    ensures 2.0 * u == speed * D
  {
    speed * D / 2.0
  }

  /** `phi`: the volume flow coefficient. */
  function Phi(flowV: real, speed: real, D: real): real
    requires D > 0.0 && speed > 0.0
  {
    flowV * 4.0 / (Pi * D * D * TipSpeed(D, speed))
  }

  /** `flow_from_phi`: the volume flow of a flow coefficient. */
  function FlowFromPhi(D: real, phi: real, speed: real): real
  {
    var u := speed * D / 2.0;
    phi * (Pi * D * D * u) / 4.0
  }

  /** `psi`: the polytropic head coefficient, the head over u²/2 (written u·(u/2)). */
  function Psi(head: real, speed: real, D: real): real
    requires D > 0.0 && speed > 0.0
  {
    var u := TipSpeed(D, speed);
    HalfSquarePositive(u);
    head / (u * (u / 2.0))
  }

  /** `head_from_psi`: the head of a head coefficient. */
  function HeadFromPsi(D: real, psi: real, speed: real): real
  {
    var u := speed * D / 2.0;
    psi * (u * (u / 2.0))
  }

  lemma ProductPositive(x: real, y: real)
    requires x > 0.0 && y > 0.0
    ensures x * y > 0.0
  {
  }

  lemma Area(D: real, speed: real)
    requires D > 0.0 && speed > 0.0
    ensures Pi * D * D * TipSpeed(D, speed) > 0.0
  {
    ProductPositive(Pi, D);
    ProductPositive(Pi * D, D);
    ProductPositive(Pi * D * D, TipSpeed(D, speed));
  }

  /** The flow of a coefficient has that coefficient. */
  lemma PhiOfFlow(D: real, phi: real, speed: real)
    requires D > 0.0 && speed > 0.0
    ensures Phi(FlowFromPhi(D, phi, speed), speed, D) == phi
  {
    var c := Pi * D * D * TipSpeed(D, speed);
    Area(D, speed);
    var q := FlowFromPhi(D, phi, speed);
    assert q == phi * c / 4.0;
    assert q * 4.0 == phi * c;
    assert Phi(q, speed, D) == q * 4.0 / c;
  }

  /** The coefficient of a flow gives that flow back. */
  lemma FlowOfPhi(D: real, flowV: real, speed: real)
    requires D > 0.0 && speed > 0.0
    ensures FlowFromPhi(D, Phi(flowV, speed, D), speed) == flowV
  {
    var c := Pi * D * D * TipSpeed(D, speed);
    Area(D, speed);
    var phi := Phi(flowV, speed, D);
    assert phi == flowV * 4.0 / c;
    assert phi * c == flowV * 4.0;
    assert FlowFromPhi(D, phi, speed) == phi * c / 4.0;
  }

  /** Half the square of a positive tip speed. */
  lemma HalfSquare(u: real) returns (c: real)
    requires u > 0.0
    ensures c == u * (u / 2.0) && c > 0.0
  {
    var half := u / 2.0;
    assert half > 0.0;
    c := u * half;
  }

  lemma HalfSquarePositive(u: real)
    requires u > 0.0
    ensures u * (u / 2.0) > 0.0
  {
    var c := HalfSquare(u);
  }

  /** The head of a coefficient has that coefficient. */
  lemma PsiOfHead(D: real, psi: real, speed: real)
    requires D > 0.0 && speed > 0.0
    ensures Psi(HeadFromPsi(D, psi, speed), speed, D) == psi
  {
    var c := HalfSquare(TipSpeed(D, speed));
    assert HeadFromPsi(D, psi, speed) == psi * c;
  }

  /** The coefficient of a head gives that head back. */
  lemma HeadOfPsi(D: real, head: real, speed: real)
    requires D > 0.0 && speed > 0.0
    ensures HeadFromPsi(D, Psi(head, speed, D), speed) == head
  {
    var c := HalfSquare(TipSpeed(D, speed));
    assert Psi(head, speed, D) == head / c;
  }

  /** `power_calc`: the gas power of a mass flow compressed at a head and an
      efficiency. */
  function PowerCalc(flowM: real, head: real, eff: real): (power: real)
    requires eff != 0.0
    ensures power * eff == flowM * head
  {
    flowM * head / eff
  }

  /** With positive flow and head and an efficiency in (0, 1], the power is at least
      the gas power, flow times head. */
  lemma PowerAtLeastGasPower(flowM: real, head: real, eff: real)
    requires flowM > 0.0 && head > 0.0 && 0.0 < eff <= 1.0
    ensures PowerCalc(flowM, head, eff) >= flowM * head
  {
    var p := PowerCalc(flowM, head, eff);
    ProductPositive(flowM, head);
    assert p == (flowM * head) / eff;
    assert p > 0.0;
    assert p - p * eff == p * (1.0 - eff);
    assert p * (1.0 - eff) >= 0.0;
  }

  // ---------------------------------------------------------------------------
  // The `_calc_from_*` routines that need no thermodynamics beyond given values

  /** The fields of a point that the coefficient routines write. */
  class Point {
    var speed: real
    var flowV: real
    var flowM: real
    var head: real
    var eff: real
    var power: real
    var phi: real
    var psi: real
    const b: real
    const D: real

    /** A point given by its coefficients, efficiency and speed, before a routine
        has run. */
    constructor (speed: real, eff: real, phi: real, psi: real, b: real, D: real)
      ensures this.speed == speed && this.eff == eff && this.phi == phi && this.psi == psi
      ensures this.b == b && this.D == D
    {
      this.speed := speed;
      this.eff := eff;
      this.phi := phi;
      this.psi := psi;
      this.b := b;
      this.D := D;
    }

    /** `_calc_from_eff_phi_psi_speed_suc` without the discharge state: head and
        volume flow from the coefficients, mass flow at the suction density `rho`,
        then the power. The point then has the coefficients it was given. */
    method CalcFromEffPhiPsiSpeed(rho: real)
      requires D > 0.0 && speed > 0.0 && eff != 0.0
      modifies this
      ensures speed == old(speed) && eff == old(eff) && phi == old(phi) && psi == old(psi)
      ensures head == HeadFromPsi(D, psi, speed) && flowV == FlowFromPhi(D, phi, speed)
      ensures flowM == flowV * rho && power == PowerCalc(flowM, head, eff)
      ensures Phi(flowV, speed, D) == phi && Psi(head, speed, D) == psi
    {
      head := HeadFromPsi(D, psi, speed);
      flowV := FlowFromPhi(D, phi, speed);
      flowM := flowV * rho;
      power := PowerCalc(flowM, head, eff);
      PhiOfFlow(D, phi, speed);
      PsiOfHead(D, psi, speed);
    }

    /** `_calc_from_disch_flow_v_speed_suc` given the head and efficiency computed
        from the two states and the suction density: mass flow, power and
        coefficients. The coefficients give the flow and head back. */
    method CalcFromDischFlowVSpeed(flowV: real, head: real, eff: real, rho: real)
      requires D > 0.0 && speed > 0.0 && eff != 0.0
      modifies this
      ensures speed == old(speed) && this.flowV == flowV && this.head == head && this.eff == eff
      ensures flowM == rho * flowV && power == PowerCalc(flowM, head, eff)
      ensures phi == Phi(flowV, speed, D) && psi == Psi(head, speed, D)
      ensures FlowFromPhi(D, phi, speed) == flowV && HeadFromPsi(D, psi, speed) == head
    {
      this.flowV := flowV;
      this.head := head;
      this.eff := eff;
      flowM := rho * flowV;
      power := PowerCalc(flowM, head, eff);
      phi := Phi(flowV, speed, D);
      psi := Psi(head, speed, D);
      FlowOfPhi(D, flowV, speed);
      HeadOfPsi(D, head, speed);
    }
  }

  // ---------------------------------------------------------------------------
  // Departure limits of ASME PTC 10-1997

  /** The allowed band and whether the point's departure lies strictly inside it. */
  datatype Limits = Limits(lower: real, upper: real, within: bool)

  const MachRangeMessage := "Mach number out of specified range."
  const ReynoldsRangeMessage := "Reynolds number out of specified range."

  /** `mach_limits`: the band for `mach_diff` at the specified machine Mach number
      (the point's own by default). */
  function MachLimits(mmsp: Option<real>, mach: real, machDiff: real): (r: Result<Limits>)
    ensures var m := if mmsp.Some? then mmsp.value else mach;
      r.Fail? <==> m < 0.0
    ensures r.Fail? ==> r.exc == ValueError(MachRangeMessage)
    ensures r.Ok? ==> r.value.lower < r.value.upper
    ensures r.Ok? ==> (r.value.within <==> r.value.lower < machDiff < r.value.upper)
  {
    var m := if mmsp.Some? then mmsp.value else mach;
    if 0.0 <= m < 0.214 then
      var lower, upper := -m, -0.25 * m + 0.286;
      Ok(Limits(lower, upper, lower < machDiff < upper))
    else if 0.214 <= m < 0.86 then
      var lower, upper := 0.266 * m - 0.271, -0.25 * m + 0.286;
      Ok(Limits(lower, upper, lower < machDiff < upper))
    else if m >= 0.86 then
      var lower, upper := -0.042, 0.07;
      Ok(Limits(lower, upper, lower < machDiff < upper))
    else Fail(ValueError(MachRangeMessage))
  }

  /** A test at exactly the specified Mach number is within the limits, except at
      Mach 0, where the band is (0, 0.286) and excludes 0. */
  lemma {:induction false} SameMachWithin(m: real, mach: real)
    requires m >= 0.0
    ensures MachLimits(Some(m), mach, 0.0).Ok?
    ensures MachLimits(Some(m), mach, 0.0).value.within <==> m > 0.0
  {
  }

  /** `reynolds_limits`: the band for `reynolds_ratio` at the specified machine
      Reynolds number (the point's own by default). `pow` is the floating-point
      power `**` with a non-integer exponent. */
  function ReynoldsLimits(remsp: Option<real>, reynolds: real, ratio: real, pow: (real, real) -> real): (r: Result<Limits>)
    ensures var re := if remsp.Some? then remsp.value else reynolds;
      r.Fail? <==> re < 90000.0
    ensures r.Fail? ==> r.exc == ValueError(ReynoldsRangeMessage)
    ensures var re := if remsp.Some? then remsp.value else reynolds;
      r.Ok? ==> (r.value.upper == if re >= 10000000.0 then 100.0 else pow(100.0, pow(re / 10000000.0, 0.3)))
    ensures var re := if remsp.Some? then remsp.value else reynolds;
      r.Ok? ==> (r.value.lower == if re >= 1000000.0 then 0.1 else pow(0.01, pow(re / 10000000.0, 0.3)))
    ensures r.Ok? ==> (r.value.within <==> r.value.lower < ratio < r.value.upper)
  {
    var re := if remsp.Some? then remsp.value else reynolds;
    var x := pow(re / 10000000.0, 0.3);
    var upper :-
      if 90000.0 <= re < 10000000.0 then Ok(pow(100.0, x))
      else if 10000000.0 <= re then Ok(100.0)
      else Fail(ValueError(ReynoldsRangeMessage));
    // The second `else: raise` of the source cannot be reached: below 9e4 the
    // first test has already raised.
    var lower := if 90000.0 <= re < 1000000.0 then pow(0.01, x) else 0.1;
    Ok(Limits(lower, upper, lower < ratio < upper))
  }

  /** The properties of a real power `b ** x` the Reynolds limits rely on. */
  ghost predicate PowerLike(pow: (real, real) -> real)
  {
    && (forall y :: y > 0.0 ==> pow(y, 0.3) > 0.0)
    && (forall x :: x > 0.0 ==> pow(100.0, x) > 1.0 && pow(0.01, x) < 1.0)
  }

  /** A test at exactly the specified Reynolds number (ratio 1) is within the
      limits, wherever they are defined. */
  lemma SameReynoldsWithin(re: real, reynolds: real, pow: (real, real) -> real)
    requires PowerLike(pow) && re >= 90000.0
    ensures ReynoldsLimits(Some(re), reynolds, 1.0, pow).Ok?
    ensures ReynoldsLimits(Some(re), reynolds, 1.0, pow).value.within
  {
    var x := pow(re / 10000000.0, 0.3);
    assert x > 0.0;
  }
}
