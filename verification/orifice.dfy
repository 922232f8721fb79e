/** A flow orifice (ccp/fo.py): tapping validation, the ISO 5167-2 factors of the
    mass-flow equation, and the constructor that either computes the flow or stores
    the flows it is given. Lengths are in metres and pressures in pascal, the base
    units the unit decorator converts to. */
module Orifice {
  import opened Wrappers
  import Reals

  const Pi: real := 3.141592653589793
  /** `np.e`. */
  const E: real := 2.718281828459045

  /** The three tapping arrangements of ISO 5167-2, section 5.3.2.1. */
  datatype Tappings = Corner | DAndHalfD | Flange

  const CornerName := "corner"
  const DAndHalfDName := "D D/2"
  const FlangeName := "flange"
  const TappingsMessage := "tappings must be \"corner\", \"D D/2\" or \"flange\""

  /** The string the caller passes for each arrangement. */
  function TappingsName(t: Tappings): string
  {
    match t
    case Corner => CornerName
    case DAndHalfD => DAndHalfDName
    case Flange => FlangeName
  }

  /** The check of the constructor: only the three names are accepted. */
  function ParseTappings(s: string): (r: Result<Tappings>)
    ensures r.Ok? <==> s == CornerName || s == DAndHalfDName || s == FlangeName
    ensures r.Ok? ==> TappingsName(r.value) == s
    ensures r.Fail? ==> r.exc == ValueError(TappingsMessage)
  {
    if s == CornerName then Ok(Corner)
    else if s == DAndHalfDName then Ok(DAndHalfD)
    else if s == FlangeName then Ok(Flange)
    else Fail(ValueError(TappingsMessage))
  }

  /** Every arrangement is accepted under its own name, and only under it. */
  lemma ParseTappingsName(t: Tappings)
    ensures ParseTappings(TappingsName(t)) == Ok(t)
  {
    assert CornerName[0] != DAndHalfDName[0] && CornerName[0] != FlangeName[0];
    assert DAndHalfDName[0] != FlangeName[0];
  }

  // ---------------------------------------------------------------------------
  // The factors of `calc_flow` that need no iteration

  /** The tapping spacings L1, L2 and the dimensionless M2 of ISO 5167-2. */
  datatype Spacing = Spacing(l1: real, l2: real, m2: real)

  /** The tapping selection: corner tappings have no spacing, D and D/2 tappings
      L1 = 1 and L2 = 0.47, flange tappings 25.4 mm over the pipe diameter on
      both sides; M2 = 2 L2 / (1 - beta) in every case. The divisions raise on a
      zero pipe diameter (flange) or a zero `1 - beta`. */
  function TappingSpacing(t: Tappings, D: real, beta: real): (r: Result<Spacing>)
    ensures r.Fail? <==> (t == Flange && D == 0.0) || beta == 1.0
    ensures r.Fail? ==> r.exc == ZeroDivisionError
    ensures r.Ok? && t == Corner ==> r.value.l1 == 0.0 && r.value.l2 == 0.0 && r.value.m2 == 0.0
    ensures r.Ok? && t == DAndHalfD ==> r.value.l1 == 1.0 && r.value.l2 == 0.47
    ensures r.Ok? && t == Flange ==> r.value.l1 == r.value.l2 && r.value.l1 * D == 0.0254
    ensures r.Ok? ==> r.value.m2 * (1.0 - beta) == 2.0 * r.value.l2
  {
    if t == Flange && D == 0.0 then Fail(ZeroDivisionError)
    else
      var l :=
        match t
        case Corner => (0.0, 0.0)
        case DAndHalfD => (1.0, 0.47)
        case Flange => (0.0254 / D, 0.0254 / D);
      if 1.0 - beta == 0.0 then Fail(ZeroDivisionError)
      else Ok(Spacing(l.0, l.1, 2.0 * l.1 / (1.0 - beta)))
  }

  /** The expansibility factor epsilon = 1 - (0.351 + 0.256 beta^4 + 0.93 beta^8)
      (1 - (p2/p1)^(1/kappa)) with p2 = p1 - delta_p; `pow` is the library power. */
  function Expansibility(beta: real, p1: real, deltaP: real, kappa: real, pow: (real, real) -> real): (r: Result<real>)
    ensures r.Fail? <==> p1 == 0.0 || kappa == 0.0
    ensures r.Fail? ==> r.exc == ZeroDivisionError
    ensures r.Ok? ==> r.value == 1.0 - ExpansibilityWeight(beta) * (1.0 - pow((p1 - deltaP) / p1, 1.0 / kappa))
  {
    if p1 == 0.0 || kappa == 0.0 then Fail(ZeroDivisionError)
    else
      var beta4 := Beta4(beta);
      var p2 := p1 - deltaP;
      Ok(1.0 - (0.351 + 0.256 * beta4 + 0.93 * (beta4 * beta4)) * (1.0 - pow(p2 / p1, 1.0 / kappa)))
  }

  /** The polynomial in beta that weighs the pressure ratio term; it is at least 0.351. */
  function ExpansibilityWeight(beta: real): (w: real)
    ensures w >= 0.351
  {
    var beta4 := Beta4(beta);
    assert beta4 >= 0.0 by { Reals.MulNonneg(beta * beta, beta * beta); }
    0.351 + 0.256 * beta4 + 0.93 * (beta4 * beta4)
  }

  /** With no pressure drop the pressure ratio is one and the fluid does not
      expand: epsilon = 1 (wherever the power of one is one). */
  lemma NoDropNoExpansion(beta: real, p1: real, kappa: real, pow: (real, real) -> real)
    requires p1 != 0.0 && kappa != 0.0
    requires pow(1.0, 1.0 / kappa) == 1.0
    ensures Expansibility(beta, p1, 0.0, kappa, pow) == Ok(1.0)
  {
    assert (p1 - 0.0) / p1 == 1.0;
  }

  /** A pressure drop that lowers the ratio term below one makes epsilon smaller
      than one, by at least the weight's share of the drop. */
  lemma DropExpands(beta: real, p1: real, deltaP: real, kappa: real, pow: (real, real) -> real)
    requires p1 != 0.0 && kappa != 0.0
    requires pow((p1 - deltaP) / p1, 1.0 / kappa) < 1.0
    ensures Expansibility(beta, p1, deltaP, kappa, pow).Ok?
    ensures Expansibility(beta, p1, deltaP, kappa, pow).value < 1.0
  {
    var w := ExpansibilityWeight(beta);
    var q := 1.0 - pow((p1 - deltaP) / p1, 1.0 / kappa);
    assert w * q > 0.0;
  }

  /** The extra term of the discharge coefficient for pipes narrower than 71.12 mm:
      0.011 (0.75 - beta)(2.8 - D / 25.4 mm); zero for wider pipes. */
  function SmallPipeTerm(D: real, beta: real): (r: real)
    ensures D >= 0.07112 ==> r == 0.0
    ensures D < 0.07112 && beta < 0.75 ==> r > 0.0
    ensures D < 0.07112 && beta > 0.75 ==> r < 0.0
  {
    if D < 0.07112 then
      var g := 2.8 - D / 0.0254;
      assert g > 0.0 by { assert D / 0.0254 < 2.8; }
      var k := 0.011 * (0.75 - beta);
      assert beta < 0.75 ==> k * g > 0.0 by { if beta < 0.75 { Reals.MulPositive(k, g); } }
      assert beta > 0.75 ==> k * g < 0.0 by { if beta > 0.75 { Reals.MulPositive(-k, g); } }
      k * g
    else 0.0
  }

  /** The term tends to zero as the pipe widens to 71.12 mm, so the coefficient
      does not jump at the threshold: 71.12 mm is 2.8 inches. */
  lemma SmallPipeTermContinuous(beta: real)
    ensures 0.011 * (0.75 - beta) * (2.8 - 0.07112 / 0.0254) == 0.0
    ensures SmallPipeTerm(0.07112, beta) == 0.0
  {
    assert 0.07112 / 0.0254 == 2.8;
  }

  /** beta^4, as the source multiplies it out. */
  function Beta4(beta: real): real
  {
    beta * beta * (beta * beta)
  }

  /** The Reader-Harris/Gallagher discharge coefficient at the Reynolds number
      `reyn`, with the small-pipe term. `pow` stands for the non-integer powers
      and `np.e ** x` is `pow(E, x)`. The divisions raise on a zero Reynolds
      number or beta^4 = 1. */
  function DischargeCoefficient(beta: real, D: real, s: Spacing, reyn: real, pow: (real, real) -> real): (r: Result<real>)
    ensures r.Fail? <==> reyn == 0.0 || Beta4(beta) == 1.0
    ensures r.Ok? ==> r.value == BaseCoefficient(beta, s, reyn, pow) + SmallPipeTerm(D, beta)
  {
    if reyn == 0.0 || 1.0 - Beta4(beta) == 0.0 then Fail(ZeroDivisionError)
    else
      var c := BaseCoefficient(beta, s, reyn, pow);
      Ok(if D < 0.07112 then c + 0.011 * (0.75 - beta) * (2.8 - D / 0.0254) else c)
  }

  /** The coefficient before the small-pipe term. */
  function BaseCoefficient(beta: real, s: Spacing, reyn: real, pow: (real, real) -> real): real
    requires reyn != 0.0 && Beta4(beta) != 1.0
  {
    var beta2 := beta * beta;
    var beta4 := Beta4(beta);
    var a := pow(19000.0 * beta / reyn, 0.8);
    0.5961 + 0.0261 * beta2 - 0.216 * (beta4 * beta4)
    + 0.000521 * pow(1000000.0 * beta / reyn, 0.7)
    + (0.0188 + 0.0063 * a) * pow(beta, 3.5) * pow(1000000.0 / reyn, 0.3)
    + (0.043 + 0.080 * pow(E, -10.0 * s.l1) - 0.123 * pow(E, -7.0 * s.l1))
      * (1.0 - 0.11 * a) * (beta4 / (1.0 - beta4))
    - 0.031 * (s.m2 - 0.8 * pow(s.m2, 1.1)) * pow(beta, 1.3)
  }

  /** The mass flow of the orifice equation for a coefficient `c`:
      c / sqrt(1 - beta^4) * epsilon * pi/4 * d^2 * sqrt(2 delta_p rho), with
      `sqrt` the library square root. */
  function MassFlow(c: real, beta: real, e: real, d: real, deltaP: real, rho: real, sqrt: real -> real): (r: Result<real>)
    ensures r.Fail? <==> sqrt(1.0 - Beta4(beta)) == 0.0
    ensures r.Ok? ==> r.value * sqrt(1.0 - Beta4(beta)) == c * e * (Pi / 4.0) * (d * d) * sqrt(2.0 * deltaP * rho)
  {
    var root := sqrt(1.0 - Beta4(beta));
    if root == 0.0 then Fail(ZeroDivisionError)
    else
      var flow := c / root * e * (Pi / 4.0) * (d * d) * sqrt(2.0 * deltaP * rho);
      assert flow * root == c * e * (Pi / 4.0) * (d * d) * sqrt(2.0 * deltaP * rho);
      Ok(flow)
  }

  /** Without a pressure drop nothing flows (wherever the square root of zero is zero). */
  lemma NoDropNoFlow(c: real, beta: real, e: real, d: real, rho: real, sqrt: real -> real)
    requires sqrt(0.0) == 0.0 && sqrt(1.0 - Beta4(beta)) != 0.0
    ensures MassFlow(c, beta, e, d, 0.0, rho, sqrt) == Ok(0.0)
  {
    assert 2.0 * 0.0 * rho == 0.0;
  }

  /** The Reynolds number a mass flow gives back: 4 q_m / (mu pi D). */
  function FlowReynolds(flow: real, mu: real, D: real): (r: Result<real>)
    ensures r.Fail? <==> mu == 0.0 || D == 0.0
    ensures r.Ok? ==> r.value * (mu * Pi * D) == 4.0 * flow
  {
    if mu * Pi * D == 0.0 then Fail(ZeroDivisionError)
    else Ok(4.0 * flow / (mu * Pi * D))
  }

  /** The properties of the upstream state that `calc_flow` reads; the library
      computes them from pressure and temperature. */
  datatype Props = Props(rho: real, mu: real, kappa: real, v: real)

  /** What `calc_flow` computes once Newton's method has settled on the Reynolds
      number `reyn`: the factors in the order the source computes them (beta,
      epsilon, the spacing) and then the flow at that Reynolds number. */
  function CalcFlow(p1: real, props: Props, deltaP: real, D: real, d: real, t: Tappings, reyn: real,
                    pow: (real, real) -> real, sqrt: real -> real): (r: Result<real>)
    ensures r.Fail? <==>
      || D == 0.0 || p1 == 0.0 || props.kappa == 0.0 || d / D == 1.0 || reyn == 0.0
      || Beta4(d / D) == 1.0
      || sqrt(1.0 - Beta4(d / D)) == 0.0
    ensures r.Fail? ==> r.exc == ZeroDivisionError
  {
    if D == 0.0 then Fail(ZeroDivisionError)
    else
      var beta := d / D;
      var e :- Expansibility(beta, p1, deltaP, props.kappa, pow);
      var s :- TappingSpacing(t, D, beta);
      var c :- DischargeCoefficient(beta, D, s, reyn, pow);
      MassFlow(c, beta, e, d, deltaP, props.rho, sqrt)
  }

  /** The residual Newton's method drives to zero: how far the Reynolds number of
      the computed flow is from the one assumed. It vanishes exactly when the two
      agree. */
  function Residual(p1: real, props: Props, deltaP: real, D: real, d: real, t: Tappings, reyn: real,
                    pow: (real, real) -> real, sqrt: real -> real): (r: Result<real>)
    ensures r.Ok? ==> r.value >= 0.0
    ensures r.Ok? ==> CalcFlow(p1, props, deltaP, D, d, t, reyn, pow, sqrt).Ok?
    ensures r.Ok? ==> (r.value == 0.0 <==>
      FlowReynolds(CalcFlow(p1, props, deltaP, D, d, t, reyn, pow, sqrt).value, props.mu, D) == Ok(reyn))
  {
    var flow :- CalcFlow(p1, props, deltaP, D, d, t, reyn, pow, sqrt);
    var back :- FlowReynolds(flow, props.mu, D);
    Ok(if back >= reyn then back - reyn else reyn - back)
  }

  // ---------------------------------------------------------------------------
  // The constructor

  /** The caller's `ccp.State`, which the constructor may change in place. */
  class FluidState {
    var p: real
    var T: real

    constructor (p: real, T: real)
      ensures this.p == p && this.T == T
    {
      this.p := p;
      this.T := T;
    }
  }

  /** The orifice's attributes; the flows are `None` when not given. */
  class FlowOrifice {
    const state: FluidState
    const deltaP: real
    const D: real
    const d: real
    const tappings: string
    var flowM: Option<real>
    var qm: Option<real>
    var flowV: Option<real>

    constructor (state: FluidState, deltaP: real, D: real, d: real, tappings: string,
                 flowM: Option<real>, qm: Option<real>, flowV: Option<real>)
      ensures this.state == state && this.deltaP == deltaP && this.D == D && this.d == d
      ensures this.tappings == tappings
      ensures this.flowM == flowM && this.qm == qm && this.flowV == flowV
    {
      this.state := state;
      this.deltaP := deltaP;
      this.D := D;
      this.d := d;
      this.tappings := tappings;
      this.flowM := flowM;
      this.qm := qm;
      this.flowV := flowV;
    }
  }

  /** The volume flow of a mass flow at the state's specific volume. */
  function VolumeFlow(flowM: real, at: Props): real
  {
    flowM * at.v
  }

  /** Whether the constructor computes the flow: no flow of any kind given. */
  predicate NoFlowGiven(flowV: Option<real>, flowM: Option<real>, qm: Option<real>)
  {
    flowM.None? && flowV.None? && qm.None?
  }

  /** `FlowOrifice(state, delta_p, D, d, tappings, flow_v, flow_m, qm,
      state_upstream)`. A downstream state is first moved upstream by adding the
      pressure drop to the CALLER's state object; that happens before the tapping
      check, so it also happens when the check raises. With no flow given, the
      flow of `calc_flow` (at the Reynolds number `reyn` its iteration settles on,
      with the properties `props` gives at the upstream state) is stored as both
      mass flows, and the volume flow is the mass flow times the specific volume;
      otherwise the given flows are stored as they are. */
  method NewFlowOrifice(state: FluidState, deltaP: real, D: real, d: real, tappings: string,
                        flowV: Option<real>, flowM: Option<real>, qm: Option<real>, upstream: bool,
                        props: (real, real) -> Props, reyn: real,
                        pow: (real, real) -> real, sqrt: real -> real)
    returns (r: Result<FlowOrifice>)
    modifies state
    ensures state.T == old(state.T)
    ensures state.p == if upstream then old(state.p) else old(state.p) + deltaP
    ensures ParseTappings(tappings).Fail? ==> r == Fail(ValueError(TappingsMessage))
    ensures ParseTappings(tappings).Ok? && !NoFlowGiven(flowV, flowM, qm) ==> r.Ok?
    ensures ParseTappings(tappings).Ok? && NoFlowGiven(flowV, flowM, qm) ==>
      var flow := CalcFlow(state.p, props(state.p, state.T), deltaP, D, d, ParseTappings(tappings).value, reyn, pow, sqrt);
      (r.Ok? <==> flow.Ok?) && (flow.Fail? ==> r == Fail(flow.exc))
    ensures r.Ok? ==> fresh(r.value) && r.value.state == state && r.value.tappings == tappings
    ensures r.Ok? ==> r.value.deltaP == deltaP && r.value.D == D && r.value.d == d
    ensures r.Ok? && NoFlowGiven(flowV, flowM, qm) ==>
      var flow := CalcFlow(state.p, props(state.p, state.T), deltaP, D, d, ParseTappings(tappings).value, reyn, pow, sqrt).value;
      r.value.flowM == Some(flow) && r.value.qm == Some(flow)
      && r.value.flowV == Some(VolumeFlow(flow, props(state.p, state.T)))
    ensures r.Ok? && !NoFlowGiven(flowV, flowM, qm) ==>
      r.value.flowM == flowM && r.value.qm == qm && r.value.flowV == flowV
  {
    if !upstream {
      state.p := state.p + deltaP;
    }
    var t := ParseTappings(tappings);
    if t.Fail? {
      return Fail(t.exc);
    }
    if NoFlowGiven(flowV, flowM, qm) {
      var at := props(state.p, state.T);
      var flow := CalcFlow(state.p, at, deltaP, D, d, t.value, reyn, pow, sqrt);
      if flow.Fail? {
        return Fail(flow.exc);
      }
      var o := new FlowOrifice(state, deltaP, D, d, tappings, Some(flow.value), Some(flow.value), Some(VolumeFlow(flow.value, at)));
      r := Ok(o);
    } else {
      var o := new FlowOrifice(state, deltaP, D, d, tappings, flowM, qm, flowV);
      r := Ok(o);
    }
  }
}
