/** `check_similarity`: the departures of a test point from a specified point and the
    ASME PTC 10-1997 bands they are reported against. The source formats them into a
    text; the model returns the values the text is made of. */
module Similarity {
  import opened Wrappers
  import Point

  /** The quantities of a point that the comparison reads (magnitudes). */
  datatype Reference = Reference(phi: real, volumeRatio: real, mach: real, reynolds: real)

  /** A reported band: two limits, or the "outside PTC10 limits" message. */
  datatype Band = Band(lower: real, upper: real) | Outside

  /** One Reynolds limit: a number, or the message. */
  datatype Bound = Bound(x: real) | OutsideBound

  const MachOutsideMessage := "Mach outside PTC10 limits."
  const ReynoldsOutsideMessage := "Reynolds outside PTC10 limits."

  const FlowCoefficientLimits := Band(0.96, 1.04)
  const VolumeRatioLimits := Band(0.95, 1.05)

  /** The values `check_similarity` reports, in the order of its text. */
  datatype Report = Report(
    flowCoefficient: real, flowCoefficientLimits: Band,
    volumeRatio: real, volumeRatioLimits: Band,
    mach: real, machLimits: Band,
    reynolds: real, reynoldsLower: Bound, reynoldsUpper: Bound)

  // ---------------------------------------------------------------------------
  // Mach band, as written: open intervals with gaps

  /** The Mach band for the specified machine Mach number, as `check_similarity`
      writes it: every comparison is strict, so 0, [0.214, 0.215] and 0.86 fall
      through to the message. */
  function MachBand(mmsp: real): (r: Band)
    ensures r.Outside? <==> mmsp <= 0.0 || 0.214 <= mmsp <= 0.215 || mmsp == 0.86
    ensures r.Band? ==> r.lower < r.upper
  {
    if 0.0 < mmsp < 0.214 then Band(-mmsp, -0.25 * mmsp + 0.286)
    else if 0.215 < mmsp < 0.86 then Band(0.266 * mmsp - 0.271, -0.25 * mmsp + 0.286)
    else if 0.86 < mmsp then Band(-0.042, 0.07)
    else Outside
  }

  /** At Mach 0.2145 the specified point's own `mach_limits` gives a band, but
      `check_similarity` reports the message. */
  lemma MachGap()
    ensures MachBand(0.2145).Outside?
    ensures Point.MachLimits(Some(0.2145), 0.0, 0.0).Ok?
  {
  }

  /** The band as `mach_limits` of the point computes it, over the same ranges. */
  function MachBandCorrected(mmsp: real): (r: Band)
    ensures r.Outside? <==> mmsp < 0.0
    ensures r.Band? ==> r.lower < r.upper
  {
    var limits := Point.MachLimits(Some(mmsp), 0.0, 0.0);
    if limits.Ok? then Band(limits.value.lower, limits.value.upper) else Outside
  }

  /** The corrected band is the point's band wherever that is defined, and agrees
      with the written one wherever the written one gives a band. */
  lemma MachBandAgrees(mmsp: real, mach: real, machDiff: real)
    ensures var limits := Point.MachLimits(Some(mmsp), mach, machDiff);
      limits.Ok? ==> MachBandCorrected(mmsp) == Band(limits.value.lower, limits.value.upper)
    ensures MachBand(mmsp).Band? ==> MachBandCorrected(mmsp) == MachBand(mmsp)
  {
  }

  // ---------------------------------------------------------------------------
  // Reynolds bounds, as written: open intervals

  /** The Reynolds upper limit, as written: 1e7 itself and 9e4 itself give the
      message. */
  function ReynoldsUpper(remsp: real, pow: (real, real) -> real): (r: Bound)
    ensures r.OutsideBound? <==> remsp <= 90000.0 || remsp == 10000000.0
    ensures 10000000.0 < remsp ==> r == Bound(100.0)
  {
    var x := pow(remsp / 10000000.0, 0.3);
    if 90000.0 < remsp < 10000000.0 then Bound(pow(100.0, x))
    else if 10000000.0 < remsp then Bound(100.0)
    else OutsideBound
  }

  /** The Reynolds lower limit, as written: 1e6 itself gives the message. */
  function ReynoldsLower(remsp: real, pow: (real, real) -> real): (r: Bound)
    ensures r.OutsideBound? <==> remsp <= 90000.0 || remsp == 1000000.0
    ensures 1000000.0 < remsp ==> r == Bound(0.1)
  {
    var x := pow(remsp / 10000000.0, 0.3);
    if 90000.0 < remsp < 1000000.0 then Bound(pow(0.01, x))
    else if 1000000.0 < remsp then Bound(0.1)
    else OutsideBound
  }

  /** At Reynolds 1e7 the point's `reynolds_limits` gives the upper limit 100, but
      `check_similarity` reports the message. */
  lemma ReynoldsBoundary(pow: (real, real) -> real)
    ensures ReynoldsUpper(10000000.0, pow).OutsideBound?
    ensures Point.ReynoldsLimits(Some(10000000.0), 0.0, 1.0, pow).Ok?
    ensures Point.ReynoldsLimits(Some(10000000.0), 0.0, 1.0, pow).value.upper == 100.0
  {
  }

  /** The two limits as `reynolds_limits` of the point computes them. */
  function ReynoldsCorrected(remsp: real, pow: (real, real) -> real): (r: (Bound, Bound))
    ensures r.0.OutsideBound? <==> remsp < 90000.0
    ensures r.1.OutsideBound? <==> remsp < 90000.0
  {
    var limits := Point.ReynoldsLimits(Some(remsp), 0.0, 1.0, pow);
    if limits.Ok? then (Bound(limits.value.lower), Bound(limits.value.upper))
    else (OutsideBound, OutsideBound)
  }

  /** The corrected limits agree with the written ones wherever those are numbers. */
  lemma ReynoldsAgrees(remsp: real, pow: (real, real) -> real)
    ensures ReynoldsUpper(remsp, pow).Bound? ==> ReynoldsCorrected(remsp, pow).1 == ReynoldsUpper(remsp, pow)
    ensures ReynoldsLower(remsp, pow).Bound? ==> ReynoldsCorrected(remsp, pow).0 == ReynoldsLower(remsp, pow)
  {
  }

  // ---------------------------------------------------------------------------
  // The report

  /** `check_similarity(point_sp, point_t)` as written: the departures of the test
      point and the bands of the strict comparisons. The ratios divide by the
      specified point's values, which must not be zero. */
  function CheckSimilarityAsWritten(sp: Reference, t: Reference, pow: (real, real) -> real): (r: Report)
    requires sp.phi != 0.0 && sp.volumeRatio != 0.0 && sp.reynolds != 0.0
    ensures r.flowCoefficient * sp.phi == t.phi
    ensures r.volumeRatio * sp.volumeRatio == t.volumeRatio
    ensures r.mach + sp.mach == t.mach
    ensures r.reynolds * sp.reynolds == t.reynolds
    ensures r.flowCoefficientLimits == Band(0.96, 1.04) && r.volumeRatioLimits == Band(0.95, 1.05)
    ensures r.machLimits.Outside? <==> sp.mach <= 0.0 || 0.214 <= sp.mach <= 0.215 || sp.mach == 0.86
    ensures r.reynoldsUpper.OutsideBound? <==> sp.reynolds <= 90000.0 || sp.reynolds == 10000000.0
    ensures r.reynoldsLower.OutsideBound? <==> sp.reynolds <= 90000.0 || sp.reynolds == 1000000.0
  {
    Report(
      t.phi / sp.phi, FlowCoefficientLimits,
      t.volumeRatio / sp.volumeRatio, VolumeRatioLimits,
      t.mach - sp.mach, MachBand(sp.mach),
      t.reynolds / sp.reynolds, ReynoldsLower(sp.reynolds, pow), ReynoldsUpper(sp.reynolds, pow))
  }

  /** The report with the corrected bands: the written report whose Mach and
      Reynolds limits are the point's own. */
  function CheckSimilarity(sp: Reference, t: Reference, pow: (real, real) -> real): (r: Report)
    requires sp.phi != 0.0 && sp.volumeRatio != 0.0 && sp.reynolds != 0.0
    ensures r.flowCoefficient * sp.phi == t.phi
    ensures r.volumeRatio * sp.volumeRatio == t.volumeRatio
    ensures r.mach + sp.mach == t.mach
    ensures r.reynolds * sp.reynolds == t.reynolds
    ensures r.flowCoefficientLimits == Band(0.96, 1.04) && r.volumeRatioLimits == Band(0.95, 1.05)
    ensures r.machLimits.Outside? <==> sp.mach < 0.0
    ensures r.reynoldsLower.OutsideBound? <==> sp.reynolds < 90000.0
  {
    var re := ReynoldsCorrected(sp.reynolds, pow);
    CheckSimilarityAsWritten(sp, t, pow).(machLimits := MachBandCorrected(sp.mach), reynoldsLower := re.0, reynoldsUpper := re.1)
  }

  /** The corrected report differs from the written one only in limits the written
      one leaves as the message. */
  lemma ReportAgrees(sp: Reference, t: Reference, pow: (real, real) -> real)
    requires sp.phi != 0.0 && sp.volumeRatio != 0.0 && sp.reynolds != 0.0
    ensures var w := CheckSimilarityAsWritten(sp, t, pow);
      var c := CheckSimilarity(sp, t, pow);
      && c.(machLimits := w.machLimits, reynoldsLower := w.reynoldsLower, reynoldsUpper := w.reynoldsUpper) == w
      && (w.machLimits.Band? ==> c.machLimits == w.machLimits)
      && (w.reynoldsLower.Bound? ==> c.reynoldsLower == w.reynoldsLower)
      && (w.reynoldsUpper.Bound? ==> c.reynoldsUpper == w.reynoldsUpper)
  {
    MachBandAgrees(sp.mach, 0.0, 0.0);
    ReynoldsAgrees(sp.reynolds, pow);
  }

  /** A point compared with itself departs by nothing: unit ratios and no Mach
      difference, each inside its band wherever the band is defined. */
  lemma SelfSimilar(p: Reference, pow: (real, real) -> real)
    requires p.phi != 0.0 && p.volumeRatio != 0.0 && p.reynolds != 0.0
    requires Point.PowerLike(pow)
    ensures var r := CheckSimilarity(p, p, pow);
      && r.flowCoefficient == 1.0 && r.volumeRatio == 1.0 && r.mach == 0.0 && r.reynolds == 1.0
      && r.flowCoefficientLimits.lower < 1.0 < r.flowCoefficientLimits.upper
      && r.volumeRatioLimits.lower < 1.0 < r.volumeRatioLimits.upper
      && (p.mach > 0.0 ==> r.machLimits.lower < 0.0 < r.machLimits.upper)
      && (p.reynolds >= 90000.0 ==> r.reynoldsLower.x < 1.0 < r.reynoldsUpper.x)
  {
    SelfRatios(p, pow);
    if p.mach > 0.0 {
      SelfMachBand(p.mach);
    }
    if p.reynolds >= 90000.0 {
      SelfReynoldsBounds(p.reynolds, pow);
    }
  }

  /** Each ratio of a point to itself is one, and the Mach difference nothing. */
  lemma SelfRatios(p: Reference, pow: (real, real) -> real)
    requires p.phi != 0.0 && p.volumeRatio != 0.0 && p.reynolds != 0.0
    ensures var r := CheckSimilarity(p, p, pow);
      r.flowCoefficient == 1.0 && r.volumeRatio == 1.0 && r.mach == 0.0 && r.reynolds == 1.0
  {
    var r := CheckSimilarity(p, p, pow);
    UnitRatio(r.flowCoefficient, p.phi);
    UnitRatio(r.volumeRatio, p.volumeRatio);
    UnitRatio(r.reynolds, p.reynolds);
  }

  lemma UnitRatio(x: real, y: real)
    requires y != 0.0 && x * y == y
    ensures x == 1.0
  {
    assert (x - 1.0) * y == 0.0;
  }

  /** A positive Mach number's corrected band strictly contains no difference. */
  lemma SelfMachBand(mach: real)
    requires mach > 0.0
    ensures MachBandCorrected(mach).lower < 0.0 < MachBandCorrected(mach).upper
  {
    Point.SameMachWithin(mach, 0.0);
  }

  /** From 90000 on, the corrected Reynolds bounds strictly contain the unit ratio. */
  lemma SelfReynoldsBounds(remsp: real, pow: (real, real) -> real)
    requires remsp >= 90000.0
    requires Point.PowerLike(pow)
    ensures ReynoldsCorrected(remsp, pow).0.x < 1.0 < ReynoldsCorrected(remsp, pow).1.x
  {
    Point.SameReynoldsWithin(remsp, 0.0, pow);
  }
}
