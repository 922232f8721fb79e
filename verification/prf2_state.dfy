/** The prototype's thermodynamic state (prf2/state.py). Its `update` builds a key
    from the names of the keyword arguments that are not `None`, puts the names of
    five known pairs into one canonical order, and looks the key up; `define` shares
    ccp's constituent loop and then updates the state from all five construction
    arguments, each passed through the prototype's unit decorator. */
module Prf2State {
  import opened Wrappers
  import opened Dicts
  import opened Reals
  import opened Quantities
  import opened Fluids
  import CcpState
  import Prf2Units

  /** CoolProp's input pairs that `update` accepts. */
  datatype InputPair = PT | PQ | PSmass | HmassP | HmassT

  /** What `update` hands to CoolProp: the positional arguments as they are, or an
      input pair and its two magnitudes. */
  datatype Request = Direct(args: seq<Value>) | Pair(pair: InputPair, first: real, second: real)

  /** `''.join(k for k, v in kwargs.items() if v is not None)`. */
  function InputsKey(kwargs: Dict<string, Value>): string
  {
    if kwargs == [] then ""
    else (if kwargs[0].1.NoneValue? then "" else kwargs[0].0) + InputsKey(kwargs[1..])
  }

  /** `order_dict`: reversed spellings of five pairs. */
  function OrderDict(): Dict<string, string>
  {
    [("Tp", "pT"), ("Qp", "pQ"), ("sp", "ps"), ("ph", "hp"), ("Th", "hT")]
  }

  /** `cp_update_dict`. */
  function UpdateDict(): Dict<string, InputPair>
  {
    [("pT", PT), ("pQ", PQ), ("ps", PSmass), ("hp", HmassP), ("hT", HmassT)]
  }

  /** The key after `order_dict`; keys it does not list are left as they are. */
  function Normalise(key: string): (r: string)
    ensures |r| == |key|
    ensures key !in Keys(OrderDict()) ==> r == key
  {
    match Get(OrderDict(), key)
    case None => key
    case Some(k) => k
  }

  function UpdateKeyMessage(key: string): string
  {
    "Update key " + key + " not implemented"
  }

  /** `kwargs[name].magnitude`. */
  function Item(kwargs: Dict<string, Value>, name: string): Result<real>
  {
    match Get(kwargs, name)
    case None => Fail(KeyError(name))
    case Some(v) => Magnitude(v)
  }

  /** `update(*args, **kwargs)` up to the call into CoolProp. */
  function Update(args: seq<Value>, kwargs: Dict<string, Value>): (r: Result<Request>)
    ensures kwargs == [] ==> r == Ok(Direct(args))
    ensures kwargs != [] && r.Ok? ==>
      r.value.Pair? && Get(UpdateDict(), Normalise(InputsKey(kwargs))) == Some(r.value.pair)
    ensures kwargs != [] && Get(UpdateDict(), Normalise(InputsKey(kwargs))).None? ==>
      r == Fail(KeyError(UpdateKeyMessage(Normalise(InputsKey(kwargs)))))
  {
    if kwargs == [] then Ok(Direct(args))
    else
      var key := Normalise(InputsKey(kwargs));
      GetKeys(UpdateDict(), key);
      match Get(UpdateDict(), key)
      case None => Fail(KeyError(UpdateKeyMessage(key)))
      case Some(pair) =>
        assert |key| == 2;
        PairRequest(kwargs, pair, key)
  }

  /** `super().update(cp_update, kwargs[inputs[0]].magnitude,
      kwargs[inputs[1]].magnitude)`. */
  function PairRequest(kwargs: Dict<string, Value>, pair: InputPair, key: string): Result<Request>
    requires |key| == 2
  {
    var first :- Item(kwargs, [key[0]]);
    var second :- Item(kwargs, [key[1]]);
    Ok(Pair(pair, first, second))
  }

  lemma InputsKeyOfTwo(x: string, a: Value, y: string, b: Value)
    requires !a.NoneValue? && !b.NoneValue?
    ensures InputsKey([(x, a), (y, b)]) == x + y
  {
    assert [(x, a), (y, b)][1..] == [(y, b)];
    assert [(y, b)][1..] == [];
    assert InputsKey([(y, b)]) == y + "" == y;
  }

  /** The magnitudes are looked up by the letters of the key, in the key's order. */
  lemma TwoQuantities(x: string, a: Value, y: string, b: Value, pair: InputPair)
    requires |x| == 1 && |y| == 1 && x != y && a.Quantity? && b.Quantity?
    ensures PairRequest([(x, a), (y, b)], pair, x + y) == Ok(Pair(pair, a.magnitude, b.magnitude))
    ensures PairRequest([(x, a), (y, b)], pair, y + x) == Ok(Pair(pair, b.magnitude, a.magnitude))
  {
    var kwargs := [(x, a), (y, b)];
    assert Get(kwargs, x) == Some(a) && Get(kwargs, y) == Some(b);
    assert [(x + y)[0]] == x && [(x + y)[1]] == y;
    assert [(y + x)[0]] == y && [(y + x)[1]] == x;
  }

  /** Every accepted key has two letters, and `order_dict` keeps the length, so a
      key of any other length is refused. */
  lemma OtherLengthsRefused(args: seq<Value>, kwargs: Dict<string, Value>)
    requires kwargs != [] && |InputsKey(kwargs)| != 2
    ensures Update(args, kwargs) == Fail(KeyError(UpdateKeyMessage(InputsKey(kwargs))))
  {
    var key := InputsKey(kwargs);
    assert Get(OrderDict(), key).None? && Get(UpdateDict(), key).None?;
  }

  /** The two quantities reach CoolProp in the order of the canonical key, whatever
      order they were passed in. */
  lemma TemperatureFirst(args: seq<Value>, t: real, tUnit: string, p: real, pUnit: string)
    ensures Update(args, [("T", Quantity(t, tUnit)), ("p", Quantity(p, pUnit))]) == Ok(Pair(PT, p, t))
    ensures Update(args, [("p", Quantity(p, pUnit)), ("T", Quantity(t, tUnit))]) == Ok(Pair(PT, p, t))
  {
    assert "T" + "p" == "Tp" && "p" + "T" == "pT";
    assert Normalise("Tp") == "pT" && Normalise("pT") == "pT";
    assert Get(UpdateDict(), "pT") == Some(PT);
    InputsKeyOfTwo("T", Quantity(t, tUnit), "p", Quantity(p, pUnit));
    InputsKeyOfTwo("p", Quantity(p, pUnit), "T", Quantity(t, tUnit));
    TwoQuantities("T", Quantity(t, tUnit), "p", Quantity(p, pUnit), PT);
    TwoQuantities("p", Quantity(p, pUnit), "T", Quantity(t, tUnit), PT);
  }

  lemma EnthalpyPressureKey()
    ensures "p" + "h" == "ph" && "h" + "p" == "hp"
    ensures Normalise("ph") == "hp" && Normalise("hp") == "hp"
    ensures Get(UpdateDict(), "hp") == Some(HmassP)
  {
    NormaliseHp();
    assert Get(UpdateDict(), "hp") == Some(HmassP);
  }

  lemma NormaliseHp()
    ensures Normalise("ph") == "hp" && Normalise("hp") == "hp"
  {
  }

  /** Enthalpy and pressure in either order give CoolProp's HmassP pair. */
  lemma EnthalpyPressure(args: seq<Value>, h: real, hUnit: string, p: real, pUnit: string)
    ensures Update(args, [("p", Quantity(p, pUnit)), ("h", Quantity(h, hUnit))]) == Ok(Pair(HmassP, h, p))
    ensures Update(args, [("h", Quantity(h, hUnit)), ("p", Quantity(p, pUnit))]) == Ok(Pair(HmassP, h, p))
  {
    EnthalpyPressureKey();
    InputsKeyOfTwo("p", Quantity(p, pUnit), "h", Quantity(h, hUnit));
    InputsKeyOfTwo("h", Quantity(h, hUnit), "p", Quantity(p, pUnit));
    TwoQuantities("p", Quantity(p, pUnit), "h", Quantity(h, hUnit), HmassP);
    TwoQuantities("h", Quantity(h, hUnit), "p", Quantity(p, pUnit), HmassP);
  }

  /** Density is not among the accepted inputs. */
  lemma DensityRefused(args: seq<Value>, p: Value, d: Value)
    requires !p.NoneValue? && !d.NoneValue?
    ensures Update(args, [("p", p), ("d", d)]) == Fail(KeyError(UpdateKeyMessage("pd")))
  {
    InputsKeyOfTwo("p", p, "d", d);
    assert "p" + "d" == "pd";
    assert Get(OrderDict(), "pd").None? && Get(UpdateDict(), "pd").None?;
  }

  /** An argument given as `None` does not enter the key. */
  lemma NoneSkipped(kwargs: Dict<string, Value>, name: string)
    ensures InputsKey([(name, NoneValue)] + kwargs) == InputsKey(kwargs)
  {
    assert ([(name, NoneValue)] + kwargs)[1..] == kwargs;
  }

  /** A single keyword named like a pair passes the key check and then fails to
      find its first letter. */
  lemma PairNamedKeyword(args: seq<Value>, v: Value)
    requires !v.NoneValue?
    ensures Update(args, [("pT", v)]) == Fail(KeyError("p"))
  {
    assert InputsKey([("pT", v)]) == "pT";
    assert Keys(OrderDict()) == ["Tp", "Qp", "sp", "ph", "Th"];
    GetKeys(OrderDict(), "pT");
    assert Normalise("pT") == "pT";
    assert Get(UpdateDict(), "pT") == Some(PT);
    var kw := [("pT", v)];
    assert ["pT"[0]] == "p";
    assert Get(kw, "p") == None by {
      assert kw[0].0 != "p" && kw[1..] == [];
    }
    assert Item(kw, "p") == Fail(KeyError("p"));
    assert PairRequest(kw, PT, "pT") == Fail(KeyError("p"));
  }

  // ---- define ----

  /** The construction arguments as the decorator of `define` leaves them. */
  datatype Args = Args(p: Value, T: Value, h: Value, s: Value, d: Value)

  /** `setup_args`, in the order `dict(p=p, T=T, h=h, s=s, d=d)` lists them. */
  function SetupArgs(a: Args): Dict<string, Value>
  {
    [("p", a.p), ("T", a.T), ("h", a.h), ("s", a.s), ("d", a.d)]
  }

  datatype Defined = Defined(fluid: string, fractions: seq<real>, initArgs: Args, request: Request)

  /** `normalize_mix(molar_fractions)` on the list `define` built. */
  method MoleFractions(raw: seq<real>) returns (r: Result<seq<real>>)
    ensures r == Prf2Normalised(raw)
  {
    var fractions := new real[|raw|](i => if 0 <= i < |raw| then raw[i] else 0.0);
    assert fractions[..] == raw;
    var n := Prf2NormalizeMix(fractions);
    if n.Fail? {
      return Fail(n.exc);
    }
    return Ok(fractions[..]);
  }

  /** `state.update(**state.setup_args)` through the unit decorator `convert`
      stands for. */
  function SetupRequest(a: Args, convert: (string, Value) -> Result<Value>): Result<Request>
  {
    var kwargs :- MapItems(SetupArgs(a), convert);
    Update([], kwargs)
  }

  /** The update at the end of `define`. */
  method UpdateFromSetup(a: Args, conv: Converter) returns (r: Result<Request>)
    ensures r == SetupRequest(a, (k, v) => Prf2Units.Converted(k, v, conv))
  {
    var call := Prf2Units.CheckUnits([], SetupArgs(a), conv);
    if call.Fail? {
      return Fail(call.exc);
    }
    r := Update(call.value.0, call.value.1);
  }

  /** `State.define`, with `update(**setup_args)` going through the unit decorator
      `convert` stands for. */
  function DefinitionWith(a: Args, fluid: CcpState.FluidArg, table: AliasTable, refprop: RefpropName,
                          backend: CcpState.Backend, convert: (string, Value) -> Result<Value>): Result<Defined>
  {
    var c :- CcpState.Composition(fluid, table, refprop, "prf");
    if backend(c.0).Some? then Fail(backend(c.0).value) else
    var fractions :- Prf2Normalised(c.1);
    var request :- SetupRequest(a, convert);
    Ok(Defined(c.0, fractions, a, request))
  }

  /** `State.define` as written: the decorator converts "p" and "T" even when they
      are `None`. */
  function Definition(a: Args, fluid: CcpState.FluidArg, table: AliasTable, refprop: RefpropName,
                      backend: CcpState.Backend, conv: Converter): Result<Defined>
  {
    DefinitionWith(a, fluid, table, refprop, backend, (k, v) => Prf2Units.Converted(k, v, conv))
  }

  method Define(a: Args, fluid: CcpState.FluidArg, table: AliasTable, refprop: RefpropName,
                backend: CcpState.Backend, conv: Converter)
    returns (r: Result<Defined>)
    ensures r == Definition(a, fluid, table, refprop, backend, conv)
  {
    var c := CcpState.Constituents(fluid, table, refprop, "prf");
    if c.Fail? {
      return Fail(c.exc);
    }
    var refused := backend(c.value.0);
    if refused.Some? {
      return Fail(refused.value);
    }
    var fractions := MoleFractions(c.value.1);
    if fractions.Fail? {
      return Fail(fractions.exc);
    }
    var request := UpdateFromSetup(a, conv);
    if request.Fail? {
      return Fail(request.exc);
    }
    return Ok(Defined(c.value.0, fractions.value, a, request.value));
  }

  /** As in ccp, a pure fluid name reaches the backend unresolved, and the backend's
      exception is what `define` raises. */
  lemma PureFluidRefused(a: Args, name: string, table: AliasTable, refprop: RefpropName,
                         backend: CcpState.Backend, conv: Converter)
    requires backend(name).Some?
    ensures Definition(a, CcpState.Pure(name), table, refprop, backend, conv) == Fail(backend(name).value)
  {
  }

  // ---- define with a missing argument ----

  /** The decorator on `update` receives all five construction arguments, and it
      converts "p" and "T" even when they are `None`: pint refuses a `None`
      magnitude, so `define` fails unless both pressure and temperature are given. */
  lemma SetupNeedsPressureAndTemperature(a: Args, conv: Converter)
    requires a.p.NoneValue? || a.T.NoneValue?
    ensures SetupRequest(a, (k, v) => Prf2Units.Converted(k, v, conv)).Fail?
    ensures SetupRequest(a, (k, v) => Prf2Units.Converted(k, v, conv)).exc.TypeError?
  {
    var f := (k, v) => Prf2Units.Converted(k, v, conv);
    var setup := SetupArgs(a);
    assert setup[..0] == [];
    if f(setup[0].0, setup[0].1).Fail? {
      MapItemsFailFrom(setup, f, 0);
    } else {
      assert setup[..1] == [setup[0]];
      MapItemsSnoc(setup, f, 0, []);
      MapItemsFailFrom(setup, f, 1);
    }
  }

  /** Pressure and enthalpy, as the docstring allows ("two properties"), raise
      `TypeError` because the temperature is `None`. */
  lemma PressureEnthalpyRaises(p: real, h: real, fluid: CcpState.FluidArg, table: AliasTable,
                               refprop: RefpropName, backend: CcpState.Backend, conv: Converter)
    requires CcpState.Composition(fluid, table, refprop, "prf").Ok?
    requires backend(CcpState.Composition(fluid, table, refprop, "prf").value.0).None?
    requires Prf2Normalised(CcpState.Composition(fluid, table, refprop, "prf").value.1).Ok?
    ensures var a := Args(Quantity(p, "pascal"), NoneValue, Quantity(h, "joule/kilogram"), NoneValue, NoneValue);
      Definition(a, fluid, table, refprop, backend, conv).Fail? && Definition(a, fluid, table, refprop, backend, conv).exc.TypeError?
  {
    var a := Args(Quantity(p, "pascal"), NoneValue, Quantity(h, "joule/kilogram"), NoneValue, NoneValue);
    SetupNeedsPressureAndTemperature(a, conv);
  }

  /** The decorator as evidently intended, and as ccp's later decorator does it:
      `None` passes through unconverted. */
  function SkipNone(conv: Converter): (string, Value) -> Result<Value>
  {
    (k: string, v: Value) => if v.NoneValue? then Ok(v) else Prf2Units.Converted(k, v, conv)
  }

  /** `State.define` with the corrected decorator. */
  function CorrectedDefinition(a: Args, fluid: CcpState.FluidArg, table: AliasTable, refprop: RefpropName,
                               backend: CcpState.Backend, conv: Converter): Result<Defined>
  {
    DefinitionWith(a, fluid, table, refprop, backend, SkipNone(conv))
  }

  lemma InputsKeyPh(kw: Dict<string, Value>)
    requires |kw| == 5 && kw[0].0 == "p" && kw[2].0 == "h"
    requires !kw[0].1.NoneValue? && kw[1].1.NoneValue? && !kw[2].1.NoneValue? && kw[3].1.NoneValue? && kw[4].1.NoneValue?
    ensures InputsKey(kw) == "ph"
  {
    var t4 := kw[4..];
    assert t4[1..] == [];
    assert InputsKey(t4) == "" + "" == "";
    var t3 := kw[3..];
    assert t3[1..] == t4;
    assert InputsKey(t3) == "" + "" == "";
    var t2 := kw[2..];
    assert t2[1..] == t3;
    assert InputsKey(t2) == "h" + "" == "h";
    var t1 := kw[1..];
    assert t1[1..] == t2;
    assert InputsKey(t1) == "" + "h" == "h";
    assert InputsKey(kw) == "p" + "h" == "ph";
  }

  /** The corrected decorator converts the pressure and passes the rest on. */
  lemma CorrectedConversion(p: real, pa: real, pUnit: string, hq: Value, conv: Converter)
    requires conv(p, pUnit, "pascal") == Some(pa) && hq.Quantity?
    ensures MapItems(SetupArgs(Args(Quantity(p, pUnit), NoneValue, hq, NoneValue, NoneValue)), SkipNone(conv))
      == Ok([("p", Quantity(pa, "pascal")), ("T", NoneValue), ("h", hq), ("s", NoneValue), ("d", NoneValue)])
  {
    var f := SkipNone(conv);
    var setup := SetupArgs(Args(Quantity(p, pUnit), NoneValue, hq, NoneValue, NoneValue));
    assert UniqueKeys(setup);
    var out := [("p", Quantity(pa, "pascal")), ("T", NoneValue), ("h", hq), ("s", NoneValue), ("d", NoneValue)];
    forall i | 0 <= i < 5 ensures out[i].0 == setup[i].0 && f(setup[i].0, setup[i].1) == Ok(out[i].1) {
      if i == 2 {
        assert Get(Prf2Units.Table(), "h").None?;
      }
    }
    MapItemsValues(setup, f, out);
  }

  lemma PressureEnthalpyUpdate(pa: real, h: real, hUnit: string)
    ensures Update([], [("p", Quantity(pa, "pascal")), ("T", NoneValue), ("h", Quantity(h, hUnit)), ("s", NoneValue), ("d", NoneValue)])
      == Ok(Pair(HmassP, h, pa))
  {
    var kw := [("p", Quantity(pa, "pascal")), ("T", NoneValue), ("h", Quantity(h, hUnit)), ("s", NoneValue), ("d", NoneValue)];
    InputsKeyPh(kw);
    NormaliseHp();
    assert Get(UpdateDict(), "hp") == Some(HmassP);
    PressureEnthalpyRequest(kw, pa, h, hUnit);
  }

  lemma PressureEnthalpyRequest(kw: Dict<string, Value>, pa: real, h: real, hUnit: string)
    requires kw == [("p", Quantity(pa, "pascal")), ("T", NoneValue), ("h", Quantity(h, hUnit)), ("s", NoneValue), ("d", NoneValue)]
    ensures PairRequest(kw, HmassP, "hp") == Ok(Pair(HmassP, h, pa))
  {
    assert UniqueKeys(kw);
    GetAt(kw, 0);
    GetAt(kw, 2);
    assert ["hp"[0]] == "h" && ["hp"[1]] == "p";
  }

  /** With the corrected decorator, pressure and enthalpy define the state through
      CoolProp's HmassP pair. */
  lemma CorrectedPressureEnthalpy(p: real, pa: real, pUnit: string, h: real, hUnit: string, conv: Converter)
    requires conv(p, pUnit, "pascal") == Some(pa)
    ensures SetupRequest(Args(Quantity(p, pUnit), NoneValue, Quantity(h, hUnit), NoneValue, NoneValue), SkipNone(conv))
      == Ok(Pair(HmassP, h, pa))
  {
    CorrectedConversion(p, pa, pUnit, Quantity(h, hUnit), conv);
    PressureEnthalpyUpdate(pa, h, hUnit);
  }
}
