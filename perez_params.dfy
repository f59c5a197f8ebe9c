/**
 * Range checks and table lookups around the Perez sky model: clamping
 * of the sky clearness and brightness, the plausibility fix of the
 * direct and diffuse illuminances, the clearness band that selects a row
 * of the Perez coefficient table, and the normalisation polynomial normsc.
 * The luminance formulas themselves (exp, pow, cos) are not modelled.
 */
module PerezParams {
  import opened Wrappers

  /** Limits of the Perez sky clearness (epsilon) and sky brightness (Delta). */
  const SkyClearInf: real := 1.0
  const SkyClearSup: real := 12.1
  const SkyBrigInf: real := 0.01
  const SkyBrigSup: real := 0.6

  /** Solar constant in klux; direct illuminance is capped at a thousand times it, in lux. */
  const SolarConstantL: real := 127.5
  const MaxDirectIlluminance: real := SolarConstantL * 1000.0

  /** x moved into [lo, hi] by the nearest bound. */
  function Clamp(x: real, lo: real, hi: real): real
  {
    if x < lo then lo else if x > hi then hi else x
  }

  /** Clamping lands in the range, keeps values already inside it, is idempotent and keeps order. */
  lemma ClampProperties(x: real, y: real, lo: real, hi: real)
    requires lo <= hi
    ensures lo <= Clamp(x, lo, hi) <= hi
    ensures lo <= x <= hi ==> Clamp(x, lo, hi) == x
    ensures Clamp(Clamp(x, lo, hi), lo, hi) == Clamp(x, lo, hi)
    ensures x <= y ==> Clamp(x, lo, hi) <= Clamp(y, lo, hi)
  {
  }

  /** Direct and diffuse illuminance are plausible: direct in [0, max], diffuse positive. */
  predicate Plausible(direct: real, diffuse: real)
  {
    0.0 <= direct <= MaxDirectIlluminance && diffuse > 0.0
  }

  /**
   * check_illuminances on (direct, diffuse): implausible values are fixed
   * by capping an over-large direct illuminance, or else by zeroing both.
   */
  function FixIlluminances(direct: real, diffuse: real): (r: (real, real))
  {
    if Plausible(direct, diffuse) then (direct, diffuse)
    else if direct > MaxDirectIlluminance then (MaxDirectIlluminance, diffuse)
    else (0.0, 0.0)
  }

  /**
   * After the fix the direct illuminance lies in [0, max]. Plausible
   * values are kept; a cap leaves the diffuse value alone, every other
   * repair zeroes both; and a second fix changes nothing exactly when the
   * first left a plausible pair or zeroed both.
   */
  lemma FixIlluminancesRange(direct: real, diffuse: real)
    ensures var (d, f) := FixIlluminances(direct, diffuse);
      0.0 <= d <= MaxDirectIlluminance &&
      (Plausible(direct, diffuse) ==> d == direct && f == diffuse) &&
      (!Plausible(direct, diffuse) ==>
         (direct > MaxDirectIlluminance && d == MaxDirectIlluminance && f == diffuse) ||
         (direct <= MaxDirectIlluminance && d == 0.0 && f == 0.0)) &&
      (FixIlluminances(d, f) == (d, f) <==> Plausible(d, f) || (d == 0.0 && f == 0.0))
  {
  }

  /** The sky conditions and illuminances of the current time step. */
  class SkyState {
    var skyclearness: real
    var skybrightness: real
    var directilluminance: real
    var diffusilluminance: real

    constructor (clearness: real, brightness: real, direct: real, diffuse: real)
      ensures skyclearness == clearness && skybrightness == brightness
      ensures directilluminance == direct && diffusilluminance == diffuse
    {
      skyclearness, skybrightness := clearness, brightness;
      directilluminance, diffusilluminance := direct, diffuse;
    }

    /** check_parametrization: clamp sky clearness to [1, 12.1] and sky brightness to [0.01, 0.6]. */
    method CheckParametrization()
      modifies this
      ensures skyclearness == Clamp(old(skyclearness), SkyClearInf, SkyClearSup)
      ensures skybrightness == Clamp(old(skybrightness), SkyBrigInf, SkyBrigSup)
      ensures directilluminance == old(directilluminance) && diffusilluminance == old(diffusilluminance)
    {
      if skyclearness < SkyClearInf || skyclearness > SkyClearSup || skybrightness < SkyBrigInf || skybrightness > SkyBrigSup {
        if skyclearness < SkyClearInf {
          skyclearness := SkyClearInf;
        }
        if skyclearness > SkyClearSup {
          skyclearness := SkyClearSup;
        }
        if skybrightness < SkyBrigInf {
          skybrightness := SkyBrigInf;
        }
        if skybrightness > SkyBrigSup {
          skybrightness := SkyBrigSup;
        }
      }
    }

    /** check_illuminances: repair an implausible pair of illuminances. */
    method CheckIlluminances()
      modifies this
      ensures (directilluminance, diffusilluminance) == FixIlluminances(old(directilluminance), old(diffusilluminance))
      ensures 0.0 <= directilluminance <= MaxDirectIlluminance
      ensures skyclearness == old(skyclearness) && skybrightness == old(skybrightness)
    {
      if !(directilluminance >= 0.0 && directilluminance <= SolarConstantL * 1000.0 && diffusilluminance > 0.0) {
        if directilluminance > SolarConstantL * 1000.0 {
          directilluminance := SolarConstantL * 1000.0;
        } else {
          directilluminance := 0.0;
          diffusilluminance := 0.0;
        }
      }
    }
  }

  // ---------------------------------------------------------------------
  // Clearness bands

  /** Lower bounds of the eight clearness bands, followed by the upper bound of the last. */
  const ClearnessBounds: seq<real> := [1.000, 1.065, 1.230, 1.500, 1.950, 2.800, 4.500, 6.200, 14.00]

  /** num_lin: the clearness band of epsilon by the band tests; 0 when none matches. */
  function ClearnessBand(epsilon: real): (b: int)
    ensures 0 <= b <= 7
  {
    if 1.000 <= epsilon < 1.065 then 0
    else if 1.065 <= epsilon < 1.230 then 1
    else if 1.230 <= epsilon < 1.500 then 2
    else if 1.500 <= epsilon < 1.950 then 3
    else if 1.950 <= epsilon < 2.800 then 4
    else if 2.800 <= epsilon < 4.500 then 5
    else if 4.500 <= epsilon < 6.200 then 6
    else if 6.200 <= epsilon < 14.00 then 7
    else 0
  }

  /** In [1, 14) the band is the one whose bounds enclose epsilon, so the band grows with epsilon. */
  lemma ClearnessBandBounds(epsilon: real, other: real)
    requires 1.0 <= epsilon < 14.0
    ensures var b := ClearnessBand(epsilon); ClearnessBounds[b] <= epsilon < ClearnessBounds[b + 1]
    ensures epsilon <= other < 14.0 ==> ClearnessBand(epsilon) <= ClearnessBand(other)
  {
  }

  datatype PerezError = EpsilonOutOfRange(epsilon: real)

  /** The band and the corrected Delta the Perez coefficients are computed from. */
  datatype BandChoice = BandChoice(band: int, delta: real)

  /**
   * The common start of calc_rel_lum_perez and coeff_lum_perez: epsilon
   * outside [1, 12.1] is fatal; for 1.065 < epsilon < 2.8 Delta is raised
   * to at least 0.2; then the clearness band is chosen.
   */
  function PerezBand(epsilon: real, delta: real): (r: Result<BandChoice, PerezError>)
    ensures r.Err? <==> epsilon < SkyClearInf || epsilon > SkyClearSup
    ensures r.Ok? ==> (0 <= r.value.band <= 7 &&
      ClearnessBounds[r.value.band] <= epsilon < ClearnessBounds[r.value.band + 1])
    ensures r.Ok? ==> (r.value.delta >= delta &&
      (r.value.delta != delta ==> r.value.delta == 0.2 && 1.065 < epsilon < 2.8))
    ensures r.Ok? && 1.065 < epsilon < 2.8 ==> r.value.delta >= 0.2
  {
    if epsilon < SkyClearInf || epsilon > SkyClearSup then
      Err(EpsilonOutOfRange(epsilon))
    else
      var d := if 1.065 < epsilon < 2.8 && delta < 0.2 then 0.2 else delta;
      ClearnessBandBounds(epsilon, epsilon);
      Ok(BandChoice(ClearnessBand(epsilon), d))
  }

  /** Coefficient block of band b: x[i][j] is entry 20 * b + 4 * i + j of the table. */
  method CoefficientBlock(coeff: seq<real>, band: int) returns (x: seq<seq<real>>)
    requires 0 <= band <= 7 && |coeff| >= 160
    ensures |x| == 5 && forall i | 0 <= i < 5 :: |x[i]| == 4
    ensures forall i, j | 0 <= i < 5 && 0 <= j < 4 :: x[i][j] == coeff[20 * band + 4 * i + j]
  {
    x := [];
    for i := 0 to 5
      invariant |x| == i
      invariant forall p | 0 <= p < i :: |x[p]| == 4
      invariant forall p, j | 0 <= p < i && 0 <= j < 4 :: x[p][j] == coeff[20 * band + 4 * p + j]
    {
      var row := [];
      for j := 0 to 4
        invariant |row| == j
        invariant forall q | 0 <= q < j :: row[q] == coeff[20 * band + 4 * i + q]
      {
        row := row + [coeff[20 * band + 4 * i + j]];
      }
      x := x + [row];
    }
  }

  /**
   * calc_rel_lum_perez / coeff_lum_perez up to the coefficient formulas:
   * check epsilon, correct Delta, and read the 5 x 4 block of row 20 * band
   * of the coefficient table.
   */
  method SelectCoefficients(coeff: seq<real>, epsilon: real, delta: real) returns (r: Result<(BandChoice, seq<seq<real>>), PerezError>)
    requires |coeff| >= 160
    ensures r.Err? <==> epsilon < SkyClearInf || epsilon > SkyClearSup
    ensures r.Ok? ==> PerezBand(epsilon, delta) == Ok(r.value.0)
    ensures r.Ok? ==> var (choice, x) := r.value;
      |x| == 5 && forall i, j | 0 <= i < 5 && 0 <= j < 4 :: |x[i]| == 4 && x[i][j] == coeff[20 * choice.band + 4 * i + j]
  {
    var choice :- PerezBand(epsilon, delta);
    var x := CoefficientBlock(coeff, choice.band);
    return Ok((choice, x));
  }

  // ---------------------------------------------------------------------
  // normsc

  /** M_PI. */
  const Pi: real := 3.14159265358979323846

  /** The polynomial fits of normsc: clear sky, intermediate sky. */
  const NormFactors: seq<seq<real>> := [
    [2.766521, 0.547665, -0.369832, 0.009237, 0.059229],
    [3.5556, -2.7152, -1.3081, 1.0660, 0.60227]
  ]

  function Pow(x: real, n: nat): real
  {
    if n == 0 then 1.0 else x * Pow(x, n - 1)
  }

  /** The polynomial with coefficients cs (constant term first): the sum of cs[k] * x^k. */
  function Poly(cs: seq<real>, x: real): real
  {
    PolyFrom(cs, x, 0)
  }

  /** The sum of cs[k] * x^(k + e): the terms of cs with their powers raised by e. */
  function PolyFrom(cs: seq<real>, x: real, e: nat): real
    decreases |cs|
  {
    if cs == [] then 0.0 else cs[0] * Pow(x, e) + PolyFrom(cs[1..], x, e + 1)
  }

  /** The nested form of Horner's scheme: cs[0] + x * (cs[1] + x * (...)). */
  function HornerValue(cs: seq<real>, x: real): real
    decreases |cs|
  {
    if cs == [] then 0.0 else cs[0] + x * HornerValue(cs[1..], x)
  }

  /** The nested form times x^e is the sum of the terms raised by e. */
  lemma {:induction false} HornerIsPolyFrom(cs: seq<real>, x: real, e: nat)
    ensures PolyFrom(cs, x, e) == Pow(x, e) * HornerValue(cs, x)
    decreases |cs|
  {
    if cs != [] {
      HornerIsPolyFrom(cs[1..], x, e + 1);
      var h := HornerValue(cs[1..], x);
      var p := Pow(x, e);
      assert Pow(x, e + 1) * h == p * (x * h);
      assert p * (cs[0] + x * h) == cs[0] * p + p * (x * h);
    }
  }

  /** Horner's nested form evaluates the polynomial. */
  lemma HornerIsPoly(cs: seq<real>, x: real)
    ensures HornerValue(cs, x) == Poly(cs, x)
  {
    HornerIsPolyFrom(cs, x, 0);
  }

  /**
   * normsc: the normalisation factor of the sky model, the fitted
   * polynomial of the chosen sky type in (altitude - pi/4) / (pi/4),
   * evaluated by Horner's scheme from the highest coefficient down.
   */
  method Normsc(altitude: real, sInter: int) returns (nsc: real)
    requires 0 <= sInter <= 1
    ensures nsc == Poly(NormFactors[sInter], (altitude - Pi / 4.0) / (Pi / 4.0))
  {
    var x := (altitude - Pi / 4.0) / (Pi / 4.0);
    nsc := Horner(NormFactors[sInter], x);
  }

  /** Horner's scheme: start from the highest coefficient, then multiply by x and add the next lower one. */
  method Horner(cs: seq<real>, x: real) returns (acc: real)
    requires cs != []
    ensures acc == Poly(cs, x)
  {
    var i := |cs| - 1;
    acc := cs[i];
    assert cs[i..][1..] == [];
    while i != 0
      invariant 0 <= i < |cs|
      invariant acc == HornerValue(cs[i..], x)
    {
      i := i - 1;
      assert cs[i..][1..] == cs[i + 1..];
      acc := acc * x + cs[i];
    }
    assert cs[0..] == cs;
    HornerIsPoly(cs, x);
  }
}
