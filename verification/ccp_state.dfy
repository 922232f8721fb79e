/** A thermodynamic state (ccp/state.py): `State.define` builds CoolProp's fluid
    string from a composition and normalises the molar fractions, and `State.update`
    picks CoolProp's input pair from the arguments it was given. CoolProp itself, the
    equation of state behind `AbstractState`, is not modelled: the model stops at the
    call `AbstractState.update(pair, first, second)`. Arguments are their magnitudes
    in SI units, as the unit decorator leaves them. */
module CcpState {
  import opened Wrappers
  import opened Dicts
  import opened Text
  import opened Reals
  import opened Sorting
  import opened Fluids

  /** CoolProp's input pairs that `update` uses. */
  datatype InputPair = PT | DmassP | HmassP | PSmass | DmassSmass | HmassSmass

  /** The state arguments; `None` is Python's `None`. */
  datatype Args = Args(p: Option<real>, T: Option<real>, rho: Option<real>, h: Option<real>, s: Option<real>)

  /** The call `AbstractState.update(pair, first, second)`. */
  datatype UpdateCall = UpdateCall(pair: InputPair, first: real, second: real)

  /** The pair's place in the order `update` tries them. */
  function Rank(pair: InputPair): nat
  {
    match pair
    case PT => 0
    case DmassP => 1
    case HmassP => 2
    case PSmass => 3
    case DmassSmass => 4
    case HmassSmass => 5
  }

  /** The two arguments of a pair, in the order CoolProp takes them. */
  function Inputs(pair: InputPair, a: Args): (Option<real>, Option<real>)
  {
    match pair
    case PT => (a.p, a.T)
    case DmassP => (a.rho, a.p)
    case HmassP => (a.h, a.p)
    case PSmass => (a.p, a.s)
    case DmassSmass => (a.rho, a.s)
    case HmassSmass => (a.h, a.s)
  }

  predicate Available(pair: InputPair, a: Args)
  {
    Inputs(pair, a).0.Some? && Inputs(pair, a).1.Some?
  }

  /** `update`'s parameters as its `locals()` holds them. */
  function UpdateLocals(a: Args): Dict<string, Option<real>>
  {
    [("p", a.p), ("T", a.T), ("rho", a.rho), ("h", a.h), ("s", a.s)]
  }

  /** The names of the arguments that are not `None`, in the order of `update`'s
      parameters. */
  function PresentNames(a: Args): seq<string>
  {
    Keys(Present(UpdateLocals(a)))
  }

  /** Python's `repr` of a list of strings. */
  function ListRepr(names: seq<string>): string
  {
    "[" + Join(seq(|names|, i requires 0 <= i < |names| => "'" + names[i] + "'"), ", ") + "]"
  }

  function UpdateKeyMessage(names: seq<string>): string
  {
    "Update key " + ListRepr(names) + " not implemented"
  }

  /** `update(p, T, rho, h, s)`: the first available pair in the order (p, T), (rho,
      p), (h, p), (p, s), (rho, s), (h, s); any other combination raises `KeyError`
      naming the arguments that were given. */
  function Update(a: Args): (r: Result<UpdateCall>)
    ensures r.Ok? <==> exists pair :: Available(pair, a)
    ensures r.Ok? ==> (Available(r.value.pair, a)
      && r.value.first == Inputs(r.value.pair, a).0.value
      && r.value.second == Inputs(r.value.pair, a).1.value)
    ensures r.Ok? ==> forall pair :: Rank(pair) < Rank(r.value.pair) ==> !Available(pair, a)
    ensures r.Fail? ==> r.exc == KeyError(UpdateKeyMessage(PresentNames(a)))
  {
    if a.p.Some? && a.T.Some? then
      assert Available(PT, a);
      Ok(UpdateCall(PT, a.p.value, a.T.value))
    else if a.p.Some? && a.rho.Some? then
      assert Available(DmassP, a);
      Ok(UpdateCall(DmassP, a.rho.value, a.p.value))
    else if a.p.Some? && a.h.Some? then
      assert Available(HmassP, a);
      Ok(UpdateCall(HmassP, a.h.value, a.p.value))
    else if a.p.Some? && a.s.Some? then
      assert Available(PSmass, a);
      Ok(UpdateCall(PSmass, a.p.value, a.s.value))
    else if a.rho.Some? && a.s.Some? then
      assert Available(DmassSmass, a);
      Ok(UpdateCall(DmassSmass, a.rho.value, a.s.value))
    else if a.h.Some? && a.s.Some? then
      assert Available(HmassSmass, a);
      Ok(UpdateCall(HmassSmass, a.h.value, a.s.value))
    else
      assert forall pair :: !Available(pair, a);
      Fail(KeyError(UpdateKeyMessage(PresentNames(a))))
  }

  /** With pressure and temperature given, the other arguments are ignored. */
  lemma ExtraArgumentsIgnored(a: Args, rho: Option<real>, h: Option<real>, s: Option<real>)
    requires a.p.Some? && a.T.Some?
    ensures Update(a.(rho := rho, h := h, s := s)) == Update(a) == Ok(UpdateCall(PT, a.p.value, a.T.value))
  {
  }

  /** How many of the arguments are given. */
  function GivenCount(a: Args): nat
  {
    (if a.p.Some? then 1 else 0) + (if a.T.Some? then 1 else 0) + (if a.rho.Some? then 1 else 0)
    + (if a.h.Some? then 1 else 0) + (if a.s.Some? then 1 else 0)
  }

  /** A single argument never determines a state. */
  lemma OneArgumentFails(a: Args)
    requires GivenCount(a) <= 1
    ensures Update(a).Fail?
  {
  }

  /** Temperature with density is not a pair `update` knows. */
  lemma TemperatureDensityFails(t: real, rho: real)
    ensures Update(Args(None, Some(t), Some(rho), None, None)) == Fail(KeyError(UpdateKeyMessage(["T", "rho"])))
  {
    var a := Args(None, Some(t), Some(rho), None, None);
    var d := UpdateLocals(a);
    assert Present(d[4..]) == [];
    assert Present(d[3..]) == [];
    assert Present(d[2..]) == [("rho", rho)];
    assert Present(d[1..]) == [("T", t), ("rho", rho)];
    assert PresentNames(a) == ["T", "rho"];
  }

  // ---- define ----

  /** The `fluid` argument: a composition by constituent, or the name of a pure
      fluid. */
  datatype FluidArg = Mixture(components: Dict<string, real>) | Pure(name: string)

  /** REFPROP's names for the constituents, each alias resolved first. */
  function RefpropNames(names: seq<string>, table: AliasTable, refprop: RefpropName): (r: seq<string>)
    ensures |r| == |names| && forall i :: 0 <= i < |names| ==> r[i] == refprop(ResolveAlias(names[i], table))
  {
    seq(|names|, i requires 0 <= i < |names| => refprop(ResolveAlias(names[i], table)))
  }

  /** The fluid string and the molar fractions before normalisation: the
      constituents' REFPROP names joined with "&" and their fractions in the same
      order, or the pure fluid's name with the single fraction 1. */
  function Composition(fluid: FluidArg, table: AliasTable, refprop: RefpropName, package: string): (r: Result<(string, seq<real>)>)
    ensures fluid.Pure? ==> r == Ok((fluid.name, [1.0]))
    ensures fluid.Mixture? ==>
      (r.Ok? <==> forall i :: 0 <= i < |fluid.components| ==> refprop(ResolveAlias(fluid.components[i].0, table)) != "")
    ensures fluid.Mixture? && r.Ok? ==>
      r.value == (Join(RefpropNames(Keys(fluid.components), table, refprop), "&"), Values(fluid.components))
  {
    match fluid
    case Pure(name) => Ok((name, [1.0]))
    case Mixture(d) =>
      var names :- MapAll(Keys(d), k => Lookup(k, table, refprop, package));
      assert names == RefpropNames(Keys(d), table, refprop);
      Ok((Join(names, "&"), Values(d)))
  }

  /** The first constituent REFPROP does not know raises `ValueError`. */
  lemma FirstUnknownConstituent(d: Dict<string, real>, table: AliasTable, refprop: RefpropName, package: string, i: nat)
    requires i < |d| && refprop(ResolveAlias(d[i].0, table)) == ""
    requires forall j :: 0 <= j < i ==> refprop(ResolveAlias(d[j].0, table)) != ""
    ensures Composition(Mixture(d), table, refprop, package) == Fail(ValueError(NotAvailable(ResolveAlias(d[i].0, table), package)))
  {
    var f := k => Lookup(k, table, refprop, package);
    assert MapAll(Keys(d)[..i], f).Ok?;
    MapAllFailFrom(Keys(d), f, i);
  }

  /** The loop of `define` over the constituents. */
  method Constituents(fluid: FluidArg, table: AliasTable, refprop: RefpropName, package: string)
    returns (r: Result<(string, seq<real>)>)
    ensures r == Composition(fluid, table, refprop, package)
  {
    match fluid {
      case Pure(name) =>
        return Ok((name, [1.0]));
      case Mixture(d) =>
        var ks := Keys(d);
        var f := k => Lookup(k, table, refprop, package);
        var names := [];
        var fractions := [];
        for i := 0 to |d|
          invariant MapAll(ks[..i], f) == Ok(names)
          invariant |fractions| == i && forall k :: 0 <= k < i ==> fractions[k] == d[k].1
        {
          var n := GetName(d[i].0, table, refprop, package);
          if n.Fail? {
            MapAllFailFrom(ks, f, i);
            return Fail(n.exc);
          }
          MapAllSnoc(ks, f, i, names);
          names := names + [n.value];
          fractions := fractions + [d[i].1];
        }
        assert ks[..|d|] == ks && fractions == Values(d);
        return Ok((Join(names, "&"), fractions));
    }
  }

  /** `cls(EOS, fluid_string)`: CoolProp's constructor of an `AbstractState`, given
      as the exception it raises for a fluid string its backend refuses (`None` when
      it accepts the string). `define` re-raises it. */
  type Backend = string -> Option<Exc>

  /** What `define` sets up: the fluid string, the normalised fractions, the
      construction arguments and the first update. */
  datatype Defined = Defined(fluid: string, fractions: seq<real>, initArgs: Args, call: UpdateCall)

  /** `State.define(p, T, h, s, rho, fluid)`: exceptions in the order the steps run. */
  function Definition(a: Args, fluid: FluidArg, table: AliasTable, refprop: RefpropName, backend: Backend): (r: Result<Defined>)
  {
    var c :- Composition(fluid, table, refprop, "ccp");
    if backend(c.0).Some? then Fail(backend(c.0).value) else
    var fractions :- Normalised(c.1);
    var call :- Update(a);
    Ok(Defined(c.0, fractions, a, call))
  }

  method Define(a: Args, fluid: FluidArg, table: AliasTable, refprop: RefpropName, backend: Backend) returns (r: Result<Defined>)
    ensures r == Definition(a, fluid, table, refprop, backend)
  {
    var c := Constituents(fluid, table, refprop, "ccp");
    if c.Fail? {
      return Fail(c.exc);
    }
    var refused := backend(c.value.0);
    if refused.Some? {
      return Fail(refused.value);
    }
    var fractions := MoleFractions(c.value.1);
    if fractions.Fail? {
      return Fail(fractions.exc);
    }
    var call := Update(a);
    if call.Fail? {
      return Fail(call.exc);
    }
    return Ok(Defined(c.value.0, fractions.value, a, call.value));
  }

  /** `normalize_mix(molar_fractions)` on the list `define` built. */
  method MoleFractions(raw: seq<real>) returns (r: Result<seq<real>>)
    ensures r == Normalised(raw)
  {
    var fractions := new real[|raw|](i => if 0 <= i < |raw| then raw[i] else 0.0);
    assert fractions[..] == raw;
    var n := NormalizeMix(fractions);
    if n.Fail? {
      return Fail(n.exc);
    }
    return Ok(fractions[..]);
  }

  /** A defined state's fluid string was accepted by the backend, its fractions sum
      to one, and it was updated from its own arguments. */
  lemma DefinedState(a: Args, fluid: FluidArg, table: AliasTable, refprop: RefpropName, backend: Backend)
    requires Definition(a, fluid, table, refprop, backend).Ok?
    ensures var st := Definition(a, fluid, table, refprop, backend).value;
      backend(st.fluid).None? && Sum(st.fractions) == 1.0 && st.initArgs == a && Update(a) == Ok(st.call)
  {
  }

  /** A pure fluid the backend accepts keeps its name and has the single fraction 1. */
  lemma PureFluid(a: Args, name: string, table: AliasTable, refprop: RefpropName, backend: Backend)
    requires backend(name).None? && Update(a).Ok?
    ensures Definition(a, Pure(name), table, refprop, backend) == Ok(Defined(name, [1.0], a, Update(a).value))
  {
    assert Sum([1.0]) == 1.0;
    assert Scaled([1.0], 1.0) == [1.0];
  }

  /** A pure fluid name is handed to the backend as it is, without alias resolution,
      and the backend's exception is what `define` raises. */
  lemma PureFluidRefused(a: Args, name: string, table: AliasTable, refprop: RefpropName, backend: Backend)
    requires backend(name).Some?
    ensures Definition(a, Pure(name), table, refprop, backend) == Fail(backend(name).value)
  {
  }

  /** The constituents keep their order, and so do their fractions, each divided by
      the total. */
  lemma MixtureOrder(a: Args, d: Dict<string, real>, table: AliasTable, refprop: RefpropName, backend: Backend)
    requires Definition(a, Mixture(d), table, refprop, backend).Ok?
    ensures Definition(a, Mixture(d), table, refprop, backend).value.fluid == Join(RefpropNames(Keys(d), table, refprop), "&")
    ensures Definition(a, Mixture(d), table, refprop, backend).value.fractions == Scaled(Values(d), Sum(Values(d)))
  {
    var c := Composition(Mixture(d), table, refprop, "ccp");
    assert c.value == (Join(RefpropNames(Keys(d), table, refprop), "&"), Values(d));
    var fr := Normalised(c.value.1);
    assert Definition(a, Mixture(d), table, refprop, backend) == Ok(Defined(c.value.0, fr.value, a, Update(a).value));
  }

  // ---- __repr__ ----

  /** `init_args`, which lists the arguments as p, T, h, s, rho. */
  function InitArgs(a: Args): Dict<string, Option<real>>
  {
    [("p", a.p), ("T", a.T), ("h", a.h), ("s", a.s), ("rho", a.rho)]
  }

  /** The construction arguments `__repr__` shows: exactly those that are not
      `None`. */
  lemma ShownArguments(a: Args)
    ensures Get(Present(InitArgs(a)), "p") == a.p
    ensures Get(Present(InitArgs(a)), "T") == a.T
    ensures Get(Present(InitArgs(a)), "h") == a.h
    ensures Get(Present(InitArgs(a)), "s") == a.s
    ensures Get(Present(InitArgs(a)), "rho") == a.rho
  {
    var d := InitArgs(a);
    assert UniqueKeys(d);
    forall i | 0 <= i < |d| ensures Get(Present(d), d[i].0) == d[i].1 {
      GetAt(d, i);
      GetPresent(d, d[i].0);
    }
    assert d[0].0 == "p" && d[1].0 == "T" && d[2].0 == "h" && d[3].0 == "s" && d[4].0 == "rho";
  }

  /** `key=fluid_dict.get, reverse=True`: larger fractions first, ties in dictionary
      order. */
  function Descending(x: (string, real), y: (string, real)): bool
  {
    x.1 >= y.1
  }

  /** The components in the order `__repr__` lists them. */
  function FluidOrder(fluid: Dict<string, real>): seq<(string, real)>
  {
    SortBy(fluid, Descending)
  }

  /** `__repr__` lists every component once, by descending fraction. */
  lemma FluidOrderDescending(fluid: Dict<string, real>)
    ensures multiset(FluidOrder(fluid)) == multiset(fluid)
    ensures forall i, j :: 0 <= i < j < |FluidOrder(fluid)| ==> FluidOrder(fluid)[i].1 >= FluidOrder(fluid)[j].1
  {
    assert TotalPreorder(Descending);
    SortByPermutation(fluid, Descending);
    SortBySorted(fluid, Descending);
  }

  /** `k=Q_("<quantity>")` for each shown argument. */
  function ArgumentTexts(items: Dict<string, real>, quantity: (string, real) -> string): (r: seq<string>)
    ensures |r| == |items|
  {
    seq(|items|, i requires 0 <= i < |items| => items[i].0 + "=Q_(\"" + quantity(items[i].0, items[i].1) + "\")")
  }

  /** `"k": <fraction>` for each component. */
  function ComponentTexts(order: Dict<string, real>, fraction: real -> string): (r: seq<string>)
    ensures |r| == |order|
  {
    seq(|order|, i requires 0 <= i < |order| => "\"" + order[i].0 + "\": " + fraction(order[i].1))
  }

  /** `State.__repr__`, given pint's rendering of a quantity (`{v:.0f~P}`) and the
      rendering of a fraction (`{v:.5f}`): after `State.define(` come the shown
      arguments in `p, T, h, s, rho` order, then the components by descending
      fraction. */
  function Repr(a: Args, fluid: Dict<string, real>, quantity: (string, real) -> string, fraction: real -> string): (r: string)
    ensures StartsWith(r, "State.define(")
    ensures OccursInOrder(r, ArgumentTexts(Present(InitArgs(a)), quantity) + ComponentTexts(FluidOrder(fluid), fraction))
  {
    var args := ArgumentTexts(Present(InitArgs(a)), quantity);
    var comps := ComponentTexts(FluidOrder(fluid), fraction);
    var head := "State.define(" + Join(args, ", ");
    var tail := ", " + "fluid={" + Join(comps, ", ");
    var r := head + tail + "})";
    assert r[..13] == "State.define(";
    OccursInOrderJoin(args, ", ");
    OccursInOrderPrefix("State.define(", Join(args, ", "), args);
    OccursInOrderJoin(comps, ", ");
    OccursInOrderPrefix(", " + "fluid={", Join(comps, ", "), comps);
    OccursInOrderConcat(head, args, tail, comps);
    OccursInOrderConcat(head + tail, args + comps, "})", []);
    assert args + comps + [] == args + comps;
    r
  }
}
