/** Unit resolution by argument name (ccp/config/units.py): the table of base units,
    its stiffness and damping entries added by a nested loop, and the `check_units`
    decorator, which converts every argument whose name resolves to a table entry
    into that entry's unit before calling the decorated function. The call itself is
    left out; the model returns the converted arguments. */
module CcpUnits {
  import opened Wrappers
  import opened Dicts
  import opened Text
  import opened Quantities

  /** The literal part of the `units` table, in its source order. */
  function BaseUnits(): Dict<string, string>
  {
    [
      ("E", "N/m**2"),
      ("Gs", "N/m**2"),
      ("rho", "kg/m**3"),
      ("density", "kg/m**3"),
      ("L", "meter"),
      ("idl", "meter"),
      ("idr", "meter"),
      ("odl", "meter"),
      ("odr", "meter"),
      ("id", "meter"),
      ("od", "meter"),
      ("i_d", "meter"),
      ("o_d", "meter"),
      ("speed", "radian/second"),
      ("frequency", "radian/second"),
      ("specific_heat", "J/kg/degK"),
      ("mx", "kg"),
      ("my", "kg"),
      ("Ip", "kg*m**2"),
      ("Id", "kg*m**2"),
      ("width", "meter"),
      ("depth", "meter"),
      ("thickness", "meter"),
      ("pitch", "meter"),
      ("height", "meter"),
      ("radius", "meter"),
      ("diameter", "meter"),
      ("clearance", "meter"),
      ("length", "meter"),
      ("area", "meter**2"),
      ("unbalance_magnitude", "kg*m"),
      ("unbalance_phase", "rad"),
      ("pressure", "pascal"),
      ("pressure_ratio", "dimensionless"),
      ("p", "pascal"),
      ("temperature", "degK"),
      ("T", "degK"),
      ("velocity", "m/s"),
      ("angle", "rad"),
      ("arc", "rad"),
      ("convection", "W/(m\U{B2}*degK)"),
      ("conductivity", "W/(m*degK)"),
      ("expansion", "1/degK"),
      ("stiffness", "N/m"),
      ("weight", "N"),
      ("load", "N"),
      ("force", "N"),
      ("torque", "N*m"),
      ("flow_v", "meter**3/second"),
      ("flow_m", "kilogram/second"),
      ("fit", "m"),
      ("viscosity", "pascal*s"),
      ("h", "joule/kilogram"),
      ("s", "joule/(kelvin kilogram)"),
      ("b", "meter"),
      ("D", "meter"),
      ("d", "meter"),
      ("roughness", "meter"),
      ("head", "joule/kilogram"),
      ("eff", "dimensionless"),
      ("power", "watt")
    ]
  }

  const StiffnessUnit := "N/m"
  const DampingUnit := "N*s/m"

  /** Entry `n` of the 18 added by the nested loop: "kxx" to "kzz" in stiffness
      units, then "cxx" to "czz" in damping units, the last letter varying fastest. */
  function AxisEntry(n: nat): (string, string)
    requires n < 18
  {
    (["kc"[n / 9], "xyz"[n / 3 % 3], "xyz"[n % 3]], if n < 9 then StiffnessUnit else DampingUnit)
  }

  function AxisEntries(): (es: seq<(string, string)>)
    ensures |es| == 18 && forall n :: 0 <= n < 18 ==> es[n] == AxisEntry(n)
  {
    seq(18, n requires 0 <= n < 18 => AxisEntry(n))
  }

  /** The `units` table once the module has been imported. */
  function UnitsTable(): Dict<string, string>
  {
    SetAll(BaseUnits(), AxisEntries())
  }

  /** The module-level loops that add the stiffness and damping entries to the
      literal table `base`. */
  method AddAxisUnits(base: Dict<string, string>) returns (units: Dict<string, string>)
    ensures units == SetAll(base, AxisEntries())
  {
    units := base;
    var prefixes, kinds, axes := "kc", [StiffnessUnit, DampingUnit], "xyz";
    var a := 0;
    while a < 2
      invariant a <= 2 && units == SetAll(base, AxisEntries()[..9 * a])
    {
      var j := 0;
      while j < 3
        invariant j <= 3 && units == SetAll(base, AxisEntries()[..9 * a + 3 * j])
      {
        var k := 0;
        while k < 3
          invariant k <= 3 && units == SetAll(base, AxisEntries()[..9 * a + 3 * j + k])
        {
          AxisEntryIndex(a, j, k);
          SetAllSnoc(base, AxisEntries(), 9 * a + 3 * j + k);
          units := Set(units, [prefixes[a], axes[j], axes[k]], kinds[a]);
          k := k + 1;
        }
        j := j + 1;
      }
      a := a + 1;
    }
    assert AxisEntries()[..18] == AxisEntries();
  }

  lemma AxisEntryIndex(a: nat, j: nat, k: nat)
    requires a < 2 && j < 3 && k < 3
    ensures AxisEntry(9 * a + 3 * j + k) == (["kc"[a], "xyz"[j], "xyz"[k]], [StiffnessUnit, DampingUnit][a])
  {
    var n := 9 * a + 3 * j + k;
    assert n == 3 * (3 * a + j) + k;
    assert n / 3 == 3 * a + j && n % 3 == k;
    assert n / 9 == a;
  }

  /** The added entries have distinct three-letter keys. */
  lemma AxisKeys(n: nat, m: nat)
    requires n < m < 18
    ensures |AxisEntry(n).0| == 3 && AxisEntry(n).0 != AxisEntry(m).0
  {
    var kn, km := AxisEntry(n).0, AxisEntry(m).0;
    if n / 9 == m / 9 && n / 3 % 3 == m / 3 % 3 {
      assert kn[2] != km[2];
    } else if n / 9 == m / 9 {
      assert kn[1] != km[1];
    } else {
      assert kn[0] != km[0];
    }
  }

  /** Every key "kxx" to "kzz" maps to N/m and every key "cxx" to "czz" to N*s/m. */
  lemma AxisUnits(base: Dict<string, string>, i: char, j: char, k: char)
    requires i in "kc" && j in "xyz" && k in "xyz"
    ensures Get(SetAll(base, AxisEntries()), [i, j, k]) == Some(if i == 'k' then StiffnessUnit else DampingUnit)
  {
    var a := if i == 'k' then 0 else 1;
    var b := if j == 'x' then 0 else if j == 'y' then 1 else 2;
    var c := if k == 'x' then 0 else if k == 'y' then 1 else 2;
    var n := 9 * a + 3 * b + c;
    assert AxisEntry(n).0 == [i, j, k];
    forall m | n < m < 18 ensures AxisEntries()[m].0 != AxisEntries()[n].0 {
      AxisKeys(n, m);
    }
    GetSetAllLast(base, AxisEntries(), n);
  }

  /** Names of other lengths are looked up in the literal table. */
  lemma NotAxisKey(base: Dict<string, string>, key: string)
    requires |key| != 3
    ensures Get(SetAll(base, AxisEntries()), key) == Get(base, key)
  {
    forall n | 0 <= n < 18 ensures AxisEntries()[n].0 != key {
      if n < 17 { AxisKeys(n, 17); } else { AxisKeys(0, 17); }
    }
    GetSetAllOther(base, AxisEntries(), key);
  }

  const Separator := '_'
  const UnitsWord := "units"
  const FlowV := "flow_v"
  const FlowM := "flow_m"

  /** The names tried for an argument, in order: the whole name, then "flow_m" and
      "flow_v" when the name contains them, then its pieces between underscores. */
  function Candidates(name: string): (c: seq<string>)
    ensures |c| >= |Split(name, Separator)| && c[|c| - |Split(name, Separator)|..] == Split(name, Separator)
  {
    var parts := Split(name, Separator);
    var withV := if Contains(name, FlowV) then [FlowV] + parts else parts;
    var withM := if Contains(name, FlowM) then [FlowM] + withV else withV;
    if name in withM then withM else [name] + withM
  }

  /** The whole argument name is always the first name tried. */
  lemma CandidatesFirst(name: string)
    ensures Candidates(name)[0] == name
  {
    var parts := Split(name, Separator);
    if Separator !in name {
      SplitNoSeparator(name, Separator);
      if Contains(name, FlowV) {
        ContainsChar(name, FlowV, 4);
      }
      if Contains(name, FlowM) {
        ContainsChar(name, FlowM, 4);
      }
    } else {
      SplitPieces(name, Separator);
      assert name !in parts;
      if Contains(name, FlowM) && name == FlowV {
        ContainsSameLength(name, FlowM);
      }
    }
  }

  /** The index of the first name that the table knows, or `|names|` when it knows none. */
  function FirstKnown(names: seq<string>, table: Dict<string, string>): (i: nat)
    ensures i <= |names|
    ensures forall j :: 0 <= j < i ==> names[j] !in Keys(table)
    ensures i < |names| ==> names[i] in Keys(table)
  {
    if names == [] then 0
    else if names[0] in Keys(table) then 0
    else 1 + FirstKnown(names[1..], table)
  }

  /** The value `check_units` passes on for the argument `name`: unchanged when a piece
      of the name is "units", when the value is `None` or when no candidate name is in
      the table; otherwise a quantity is converted with `.to`, and anything else goes
      through `Q_`, whose `TypeError` leaves the value as it was. */
  function Converted(name: string, v: Value, table: Dict<string, string>, conv: Converter): (r: Result<Value>)
    ensures v.NoneValue? || v.Flag? ==> r == Ok(v)
    ensures r.Fail? ==> v.Quantity? && UnitsWord !in Split(name, Separator) && UnitFor(name, table).Some?
    ensures r.Ok? && r.value != v ==> UnitFor(name, table).Some? && r.value.Quantity? && r.value.unit == UnitFor(name, table).value
    ensures v.Number? && UnitsWord !in Split(name, Separator) && UnitFor(name, table).Some?
            ==> r == Ok(Quantity(v.x, UnitFor(name, table).value))
  {
    var names := Candidates(name);
    var i := FirstKnown(names, table);
    if UnitsWord in Split(name, Separator) || v.NoneValue? || i == |names| then Ok(v)
    else
      GetKeys(table, names[i]);
      ConvertTo(v, Get(table, names[i]).value, conv)
  }

  /** The unit of the first candidate name the table knows. */
  function UnitFor(name: string, table: Dict<string, string>): (u: Option<string>)
    ensures u.None? <==> forall j :: 0 <= j < |Candidates(name)| ==> Candidates(name)[j] !in Keys(table)
  {
    var names := Candidates(name);
    var i := FirstKnown(names, table);
    if i == |names| then None
    else
      GetKeys(table, names[i]);
      Get(table, names[i])
  }

  /** An argument whose whole name is in the table takes that entry's unit, whatever
      its pieces are. */
  lemma UnitForWholeName(name: string, table: Dict<string, string>)
    requires name in Keys(table)
    ensures UnitFor(name, table) == Get(table, name)
  {
    CandidatesFirst(name);
  }

  /** The `try` block: `v.to(unit)` for a quantity; for anything else the
      `AttributeError` leads to `Q_(v, unit)`, whose `TypeError` is caught and the
      value kept. A `DimensionalityError` from `.to` is not caught. */
  function ConvertTo(v: Value, unit: string, conv: Converter): (r: Result<Value>)
    ensures r.Fail? ==> v.Quantity? && conv(v.magnitude, v.unit, unit).None?
  {
    if v.Quantity? then QuantityTo(v, unit, conv)
    else match MakeQuantity(v, unit)
      case Ok(q) => Ok(q)
      case Fail(_) => Ok(v)
  }

  /** The names list `check_units` builds for an argument that has no "units" piece. */
  method CandidateNames(name: string) returns (names: seq<string>)
    ensures names == Candidates(name)
  {
    names := Split(name, Separator);
    if Contains(name, FlowV) {
      names := [FlowV] + names;
    }
    if Contains(name, FlowM) {
      names := [FlowM] + names;
    }
    if name !in names {
      names := [name] + names;
    }
  }

  /** The conversion of one argument, with the loop over its candidate names. */
  method ConvertArgument(name: string, v: Value, table: Dict<string, string>, conv: Converter)
    returns (r: Result<Value>)
    ensures r == Converted(name, v, table, conv)
  {
    if UnitsWord in Split(name, Separator) {
      return Ok(v);
    }
    var names := CandidateNames(name);
    var i := 0;
    while i < |names| && !(names[i] in Keys(table) && !v.NoneValue?)
      invariant i <= |names|
      invariant v.NoneValue? || i <= FirstKnown(names, table)
    {
      i := i + 1;
    }
    if i == |names| {
      assert v.NoneValue? || FirstKnown(names, table) == i;
      return Ok(v);
    }
    assert FirstKnown(names, table) == i;
    GetKeys(table, names[i]);
    r := ConvertTo(v, Get(table, names[i]).value, conv);
  }

  /** The arguments `check_units` passes to the decorated function. */
  datatype Call = Call(args: seq<Value>, kwargs: Dict<string, Value>)

  /** Python's `zip`: pairs up to the shorter of the two sequences. */
  function Zip<A, B>(xs: seq<A>, ys: seq<B>): (z: seq<(A, B)>)
    ensures |z| == if |xs| < |ys| then |xs| else |ys|
    ensures forall i :: 0 <= i < |z| ==> z[i] == (xs[i], ys[i])
  {
    if xs == [] || ys == [] then [] else [(xs[0], ys[0])] + Zip(xs[1..], ys[1..])
  }

  /** What `inner` computes before calling the decorated function: the positional
      arguments paired with the parameter names and converted in order, then the
      keyword arguments. */
  function CheckedCall(argNames: seq<string>, args: seq<Value>, kwargs: Dict<string, Value>,
                       table: Dict<string, string>, conv: Converter): Result<Call>
  {
    var a :- MapAll(Zip(argNames, args), (p: (string, Value)) => Converted(p.0, p.1, table, conv));
    var k :- MapItems(kwargs, (name, v) => Converted(name, v, table, conv));
    Ok(Call(a, k))
  }

  /** The loop over the positional arguments paired with the parameter names. */
  method ConvertPositional(argNames: seq<string>, args: seq<Value>, table: Dict<string, string>, conv: Converter)
    returns (r: Result<seq<Value>>)
    ensures r == MapAll(Zip(argNames, args), (p: (string, Value)) => Converted(p.0, p.1, table, conv))
  {
    var pairs := Zip(argNames, args);
    var f := (p: (string, Value)) => Converted(p.0, p.1, table, conv);
    var baseArgs := [];
    var i := 0;
    while i < |pairs|
      invariant i <= |pairs| && MapAll(pairs[..i], f) == Ok(baseArgs)
    {
      var c := ConvertArgument(pairs[i].0, pairs[i].1, table, conv);
      if c.Fail? {
        MapAllFailFrom(pairs, f, i);
        return Fail(c.exc);
      }
      MapAllSnoc(pairs, f, i, baseArgs);
      baseArgs := baseArgs + [c.value];
      i := i + 1;
    }
    assert pairs[..i] == pairs;
    r := Ok(baseArgs);
  }

  /** The loop over the keyword arguments. */
  method ConvertKeywords(kwargs: Dict<string, Value>, table: Dict<string, string>, conv: Converter)
    returns (r: Result<Dict<string, Value>>)
    ensures r == MapItems(kwargs, (name, v) => Converted(name, v, table, conv))
  {
    var g := (name: string, v: Value) => Converted(name, v, table, conv);
    var baseKwargs := [];
    var i := 0;
    while i < |kwargs|
      invariant i <= |kwargs| && MapItems(kwargs[..i], g) == Ok(baseKwargs)
    {
      var c := ConvertArgument(kwargs[i].0, kwargs[i].1, table, conv);
      if c.Fail? {
        MapItemsFailFrom(kwargs, g, i);
        return Fail(c.exc);
      }
      MapItemsSnoc(kwargs, g, i, baseKwargs);
      baseKwargs := Set(baseKwargs, kwargs[i].0, c.value);
      i := i + 1;
    }
    assert kwargs[..i] == kwargs;
    r := Ok(baseKwargs);
  }

  /** `inner(*args, **kwargs)` up to the call of the decorated function. */
  method CheckUnits(argNames: seq<string>, args: seq<Value>, kwargs: Dict<string, Value>,
                    table: Dict<string, string>, conv: Converter) returns (r: Result<Call>)
    ensures r == CheckedCall(argNames, args, kwargs, table, conv)
  {
    var baseArgs :- ConvertPositional(argNames, args, table, conv);
    var baseKwargs :- ConvertKeywords(kwargs, table, conv);
    r := Ok(Call(baseArgs, baseKwargs));
  }

  /** A name without the letter "f" cannot contain "flow_v" or "flow_m", so its
      candidates are the name itself and its pieces. */
  lemma CandidatesWithoutFlow(name: string)
    requires 'f' !in name && Separator in name
    ensures Candidates(name) == [name] + Split(name, Separator)
  {
    if Contains(name, FlowV) {
      ContainsChar(name, FlowV, 0);
    }
    if Contains(name, FlowM) {
      ContainsChar(name, FlowM, 0);
    }
    SplitPieces(name, Separator);
  }

  /** Flow arguments: when the whole name is not in the table, a name containing
      "flow_m" takes the unit of "flow_m", and otherwise one containing "flow_v" the
      unit of "flow_v", before any of its pieces is considered. */
  lemma FlowUnit(name: string, table: Dict<string, string>)
    requires name !in Keys(table)
    ensures Contains(name, FlowM) && FlowM in Keys(table) ==> UnitFor(name, table) == Get(table, FlowM)
    ensures !Contains(name, FlowM) && Contains(name, FlowV) && FlowV in Keys(table)
            ==> UnitFor(name, table) == Get(table, FlowV)
  {
    CandidatesFirst(name);
    var c := Candidates(name);
    if Contains(name, FlowM) && FlowM in Keys(table) {
      assert c[1] == FlowM;
      assert FirstKnown(c, table) == 1;
    } else if Contains(name, FlowV) && FlowV in Keys(table) && !Contains(name, FlowM) {
      assert c[1] == FlowV;
      assert FirstKnown(c, table) == 1;
    }
  }

  /** The rule the documentation illustrates with "inlet_pressure": for a name of
      two pieces joined by an underscore, where neither the whole name nor the first
      piece is in the table but the second is, a number takes the unit of the second
      piece. */
  lemma SecondPieceUnit(first: string, second: string, x: real, table: Dict<string, string>, conv: Converter)
    requires Separator !in first && Separator !in second && 'f' !in first && 'f' !in second
    requires first != UnitsWord && second != UnitsWord
    requires first + [Separator] + second !in Keys(table) && first !in Keys(table) && second in Keys(table)
    ensures Get(table, second).Some?
    ensures Converted(first + [Separator] + second, Number(x), table, conv) == Ok(Quantity(x, Get(table, second).value))
  {
    GetKeys(table, second);
    var name := first + [Separator] + second;
    TwoPieces(first, second);
    assert FirstKnown(Candidates(name), table) == 2;
    assert UnitFor(name, table) == Get(table, second);
    assert UnitsWord !in Split(name, Separator);
  }

  lemma TwoPieces(first: string, second: string)
    requires Separator !in first && Separator !in second && 'f' !in first && 'f' !in second
    ensures Split(first + [Separator] + second, Separator) == [first, second]
    ensures Candidates(first + [Separator] + second) == [first + [Separator] + second, first, second]
  {
    var name := first + [Separator] + second;
    SplitNoSeparator(first, Separator);
    SplitNoSeparator(second, Separator);
    SplitAroundEnd(first, second, Separator);
    assert name[|first|] == Separator;
    CandidatesWithoutFlow(name);
  }

  lemma InletPressure(x: real, table: Dict<string, string>, conv: Converter)
    requires "inlet_pressure" !in Keys(table) && "inlet" !in Keys(table) && "pressure" in Keys(table)
    ensures Get(table, "pressure").Some?
    ensures Converted("inlet_pressure", Number(x), table, conv) == Ok(Quantity(x, Get(table, "pressure").value))
  {
    assert "inlet_pressure" == "inlet" + [Separator] + "pressure";
    SecondPieceUnit("inlet", "pressure", x, table, conv);
  }

  /** The second example of the documentation, with the table {"L": "meter"}: a
      quantity in inches is converted to meters. */
  lemma LengthInMeters(conv: Converter)
    requires conv(0.5, "inches", "meter") == Some(0.0127)
    ensures Converted("L", Quantity(0.5, "inches"), [("L", "meter")], conv) == Ok(Quantity(0.0127, "meter"))
  {
    var table := [("L", "meter")];
    assert Split("L", Separator) == ["L"] && Candidates("L") == ["L"] by {
      SplitNoSeparator("L", Separator);
    }
    assert FirstKnown(["L"], table) == 0 by {
      assert Keys(table) == ["L"];
    }
    assert Get(table, "L") == Some("meter");
    assert ConvertTo(Quantity(0.5, "inches"), "meter", conv) == Ok(Quantity(0.0127, "meter"));
  }

  /** The decorated function receives one positional argument per parameter name
      that was matched (extra positional arguments are dropped by `zip`), each
      converted, and the keyword arguments in their order under their own names. */
  lemma CheckedCallShape(argNames: seq<string>, args: seq<Value>, kwargs: Dict<string, Value>,
                         table: Dict<string, string>, conv: Converter)
    requires UniqueKeys(kwargs) && CheckedCall(argNames, args, kwargs, table, conv).Ok?
    ensures var call := CheckedCall(argNames, args, kwargs, table, conv).value;
      && |call.args| == (if |argNames| < |args| then |argNames| else |args|)
      && (forall i :: 0 <= i < |call.args| ==> call.args[i] == Converted(argNames[i], args[i], table, conv).value)
      && |call.kwargs| == |kwargs|
      && (forall i :: 0 <= i < |kwargs| ==>
            call.kwargs[i].0 == kwargs[i].0 && Converted(kwargs[i].0, kwargs[i].1, table, conv) == Ok(call.kwargs[i].1))
  {
    MapItemsEntries(kwargs, (name, v) => Converted(name, v, table, conv));
  }

  /** Only a quantity whose unit cannot be converted makes the decorator raise: a
      call with no quantity among its arguments always goes through. */
  lemma NoQuantityNoError(argNames: seq<string>, args: seq<Value>, kwargs: Dict<string, Value>,
                          table: Dict<string, string>, conv: Converter)
    requires forall i :: 0 <= i < |args| ==> !args[i].Quantity?
    requires forall i :: 0 <= i < |kwargs| ==> !kwargs[i].1.Quantity?
    ensures CheckedCall(argNames, args, kwargs, table, conv).Ok?
  {
    var pairs := Zip(argNames, args);
    forall i | 0 <= i < |pairs| ensures Converted(pairs[i].0, pairs[i].1, table, conv).Ok? {
      assert pairs[i].1 == args[i];
    }
    MapItemsOk(kwargs, (name, v) => Converted(name, v, table, conv));
  }
}
