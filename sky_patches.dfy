/**
 * The discrete sky subdivisions of the daylight calculation: the
 * Tregenza subdivision of the hemisphere into 145 patches (seven bands of
 * 12 degrees and a zenith patch) and the finer 2305-patch subdivision, the
 * tables that describe them, the mapping of a direction to its patch, and
 * the chain of non-empty direct patches.
 *
 * Directions enter as an altitude and an azimuth in degrees: the asin and
 * atan2 that the source applies to a direction vector are not modelled.
 */
module SkyPatches {
  import opened CNumeric

  // ---------------------------------------------------------------------
  // Ring tables of write_segments_direct

  /** number145: index of the first patch of each ring of the 145-patch sky. */
  const Number145: seq<int> := [0, 30, 60, 84, 108, 126, 138, 144]
  /** ring_division145: patches per ring; the zenith ring is recorded as 0. */
  const RingDivision145: seq<real> := [30.0, 30.0, 24.0, 24.0, 18.0, 12.0, 6.0, 0.0]
  /** number2305: index of the first patch of each ring of the 2305-patch sky. */
  const Number2305: seq<int> := [0, 120, 240, 360, 480, 600, 720, 840, 960, 1056, 1152, 1248, 1344, 1440, 1536, 1632, 1728, 1800, 1872, 1944, 2016, 2064, 2112, 2160, 2208, 2232, 2256, 2280, 2304]
  /** ring_division2305: patches per ring; the zenith ring is recorded as 0. */
  const RingDivision2305: seq<real> := [120.0, 120.0, 120.0, 120.0, 120.0, 120.0, 120.0, 120.0, 96.0, 96.0, 96.0, 96.0, 96.0, 96.0, 96.0, 96.0, 72.0, 72.0, 72.0, 72.0, 48.0, 48.0, 48.0, 48.0, 24.0, 24.0, 24.0, 24.0, 0.0]

  /**
   * Each ring starts where the previous one ends: the first-patch tables
   * are the prefix sums of the ring sizes, ending at the zenith patch 144
   * and 2304.
   */
  lemma RingTablesArePrefixSums()
    ensures |Number145| == 8 && |RingDivision145| == 8 && |Number2305| == 29 && |RingDivision2305| == 29
    ensures Number145[0] == 0 && Number145[7] == 144
    ensures forall r | 0 <= r < 7 :: Number145[r + 1] as real == Number145[r] as real + RingDivision145[r]
    ensures Number2305[0] == 0 && Number2305[28] == 2304
    ensures forall r | 0 <= r < 28 :: Number2305[r + 1] as real == Number2305[r] as real + RingDivision2305[r]
  {
  }

  /** The ring of the 145-patch sky that patch i belongs to. */
  function RingOf(i: int): (r: int)
    requires 0 <= i <= 144
    ensures 0 <= r <= 7 && Number145[r] <= i
    ensures r < 7 ==> i < Number145[r + 1]
  {
    RingFrom(i, 0)
  }

  function RingFrom(i: int, r: int): (s: int)
    requires 0 <= r <= 7 && Number145[r] <= i <= 144
    ensures r <= s <= 7 && Number145[s] <= i
    ensures s < 7 ==> i < Number145[s + 1]
    decreases 7 - r
  {
    if r == 7 || i < Number145[r + 1] then r else RingFrom(i, r + 1)
  }

  // ---------------------------------------------------------------------
  // theta_ordered and phi_ordered

  const ThetaRing0: seq<real> := [84.0, 84.0, 84.0, 84.0, 84.0, 84.0, 84.0, 84.0, 84.0, 84.0, 84.0, 84.0, 84.0, 84.0, 84.0, 84.0, 84.0, 84.0, 84.0, 84.0, 84.0, 84.0, 84.0, 84.0, 84.0, 84.0, 84.0, 84.0, 84.0, 84.0]
  const ThetaRing1: seq<real> := [72.0, 72.0, 72.0, 72.0, 72.0, 72.0, 72.0, 72.0, 72.0, 72.0, 72.0, 72.0, 72.0, 72.0, 72.0, 72.0, 72.0, 72.0, 72.0, 72.0, 72.0, 72.0, 72.0, 72.0, 72.0, 72.0, 72.0, 72.0, 72.0, 72.0]
  const ThetaRing2: seq<real> := [60.0, 60.0, 60.0, 60.0, 60.0, 60.0, 60.0, 60.0, 60.0, 60.0, 60.0, 60.0, 60.0, 60.0, 60.0, 60.0, 60.0, 60.0, 60.0, 60.0, 60.0, 60.0, 60.0, 60.0]
  const ThetaRing3: seq<real> := [48.0, 48.0, 48.0, 48.0, 48.0, 48.0, 48.0, 48.0, 48.0, 48.0, 48.0, 48.0, 48.0, 48.0, 48.0, 48.0, 48.0, 48.0, 48.0, 48.0, 48.0, 48.0, 48.0, 48.0]
  const ThetaRing4: seq<real> := [36.0, 36.0, 36.0, 36.0, 36.0, 36.0, 36.0, 36.0, 36.0, 36.0, 36.0, 36.0, 36.0, 36.0, 36.0, 36.0, 36.0, 36.0]
  const ThetaRing5: seq<real> := [24.0, 24.0, 24.0, 24.0, 24.0, 24.0, 24.0, 24.0, 24.0, 24.0, 24.0, 24.0]
  const ThetaRing6: seq<real> := [12.0, 12.0, 12.0, 12.0, 12.0, 12.0]
  const ThetaRing7: seq<real> := [0.0]
  const PhiRing0: seq<real> := [0.0, 12.0, 24.0, 36.0, 48.0, 60.0, 72.0, 84.0, 96.0, 108.0, 120.0, 132.0, 144.0, 156.0, 168.0, 180.0, 192.0, 204.0, 216.0, 228.0, 240.0, 252.0, 264.0, 276.0, 288.0, 300.0, 312.0, 324.0, 336.0, 348.0]
  const PhiRing1: seq<real> := [0.0, 12.0, 24.0, 36.0, 48.0, 60.0, 72.0, 84.0, 96.0, 108.0, 120.0, 132.0, 144.0, 156.0, 168.0, 180.0, 192.0, 204.0, 216.0, 228.0, 240.0, 252.0, 264.0, 276.0, 288.0, 300.0, 312.0, 324.0, 336.0, 348.0]
  const PhiRing2: seq<real> := [0.0, 15.0, 30.0, 45.0, 60.0, 75.0, 90.0, 105.0, 120.0, 135.0, 150.0, 165.0, 180.0, 195.0, 210.0, 225.0, 240.0, 255.0, 270.0, 285.0, 300.0, 315.0, 330.0, 345.0]
  const PhiRing3: seq<real> := [0.0, 15.0, 30.0, 45.0, 60.0, 75.0, 90.0, 105.0, 120.0, 135.0, 150.0, 165.0, 180.0, 195.0, 210.0, 225.0, 240.0, 255.0, 270.0, 285.0, 300.0, 315.0, 330.0, 345.0]
  const PhiRing4: seq<real> := [0.0, 20.0, 40.0, 60.0, 80.0, 100.0, 120.0, 140.0, 160.0, 180.0, 200.0, 220.0, 240.0, 260.0, 280.0, 300.0, 320.0, 340.0]
  const PhiRing5: seq<real> := [0.0, 30.0, 60.0, 90.0, 120.0, 150.0, 180.0, 210.0, 240.0, 270.0, 300.0, 330.0]
  const PhiRing6: seq<real> := [0.0, 60.0, 120.0, 180.0, 240.0, 300.0]
  const PhiRing7: seq<real> := [0.0]

  /** The zenith angles theta_ordered lists, ring by ring. */
  const ThetaRings: seq<seq<real>> := [ThetaRing0, ThetaRing1, ThetaRing2, ThetaRing3, ThetaRing4, ThetaRing5, ThetaRing6, ThetaRing7]
  /** The azimuths phi_ordered lists, ring by ring. */
  const PhiRings: seq<seq<real>> := [PhiRing0, PhiRing1, PhiRing2, PhiRing3, PhiRing4, PhiRing5, PhiRing6, PhiRing7]

  /** Each ring of both listings has as many entries as the ring has patches (one for the zenith). */
  lemma RingListingSizes(r: int)
    requires 0 <= r <= 7
    ensures |ThetaRings| == 8 && |PhiRings| == 8
    ensures |ThetaRings[r]| == |PhiRings[r]| == (if r < 7 then Number145[r + 1] else 145) - Number145[r]
  {
  }

  /** Entry i of theta_ordered. */
  function ThetaEntry(i: int): real
    requires 0 <= i <= 144
  {
    var r := RingOf(i);
    RingListingSizes(r);
    ThetaRings[r][i - Number145[r]]
  }

  /** Entry i of phi_ordered. */
  function PhiEntry(i: int): real
    requires 0 <= i <= 144
  {
    var r := RingOf(i);
    RingListingSizes(r);
    PhiRings[r][i - Number145[r]]
  }

  /** theta_ordered: a new array of the 145 patch zenith angles. */
  method ThetaOrdered() returns (t: array<real>)
    ensures fresh(t) && t.Length == 145 && forall i | 0 <= i < 145 :: t[i] == ThetaEntry(i)
  {
    t := new real[145](i requires 0 <= i < 145 => ThetaEntry(i));
  }

  /** phi_ordered: a new array of the 145 patch azimuths. */
  method PhiOrdered() returns (p: array<real>)
    ensures fresh(p) && p.Length == 145 && forall i | 0 <= i < 145 :: p[i] == PhiEntry(i)
  {
    p := new real[145](i requires 0 <= i < 145 => PhiEntry(i));
  }

  /** Every entry of ring r of theta_ordered is 84 - 12r. */
  lemma ThetaRingConstant(r: int)
    requires 0 <= r <= 7
    ensures forall j | 0 <= j < |ThetaRings[r]| :: ThetaRings[r][j] == 84.0 - 12.0 * r as real
  {
    if r == 0 {
      assert forall j | 0 <= j < 30 :: ThetaRing0[j] == 84.0;
    } else if r == 1 {
      assert forall j | 0 <= j < 30 :: ThetaRing1[j] == 72.0;
    } else if r == 2 {
      assert forall j | 0 <= j < 24 :: ThetaRing2[j] == 60.0;
    } else if r == 3 {
      assert forall j | 0 <= j < 24 :: ThetaRing3[j] == 48.0;
    } else if r == 4 {
      assert forall j | 0 <= j < 18 :: ThetaRing4[j] == 36.0;
    } else if r == 5 {
      assert forall j | 0 <= j < 12 :: ThetaRing5[j] == 24.0;
    } else if r == 6 {
      assert forall j | 0 <= j < 6 :: ThetaRing6[j] == 12.0;
    }
  }

  /** Every patch of ring r is listed at zenith angle 84 - 12r: the centre of its 12-degree band, 0 for the zenith. */
  lemma ThetaByRing(i: int)
    requires 0 <= i <= 144
    ensures ThetaEntry(i) == 84.0 - 12.0 * RingOf(i) as real
  {
    var r := RingOf(i);
    RingListingSizes(r);
    ThetaRingConstant(r);
  }

  /** The azimuth step between neighbouring patches of each ring, 360 / ring_division145. */
  const PhiStep: seq<real> := [12.0, 12.0, 15.0, 15.0, 20.0, 30.0, 60.0]

  /** Entry j of ring r of phi_ordered is j steps round from azimuth 0. */
  lemma PhiRingSpacing(r: int)
    requires 0 <= r < 7
    ensures forall j | 0 <= j < |PhiRings[r]| :: PhiRings[r][j] == j as real * PhiStep[r]
  {
    if r < 4 {
      PhiRingSpacingLow(r);
    } else {
      PhiRingSpacingHigh(r);
    }
  }

  lemma PhiRingSpacingLow(r: int)
    requires 0 <= r < 4
    ensures forall j | 0 <= j < |PhiRings[r]| :: PhiRings[r][j] == j as real * PhiStep[r]
  {
    if r == 0 {
      assert forall j | 0 <= j < 30 :: PhiRing0[j] == j as real * 12.0;
    } else if r == 1 {
      assert forall j | 0 <= j < 30 :: PhiRing1[j] == j as real * 12.0;
    } else if r == 2 {
      assert forall j | 0 <= j < 24 :: PhiRing2[j] == j as real * 15.0;
    } else {
      assert forall j | 0 <= j < 24 :: PhiRing3[j] == j as real * 15.0;
    }
  }

  lemma PhiRingSpacingHigh(r: int)
    requires 4 <= r < 7
    ensures forall j | 0 <= j < |PhiRings[r]| :: PhiRings[r][j] == j as real * PhiStep[r]
  {
    if r == 4 {
      assert forall j | 0 <= j < 18 :: PhiRing4[j] == j as real * 20.0;
    } else if r == 5 {
      assert forall j | 0 <= j < 12 :: PhiRing5[j] == j as real * 30.0;
    } else {
      assert forall j | 0 <= j < 6 :: PhiRing6[j] == j as real * 60.0;
    }
  }

  /**
   * The patches of ring r are spaced evenly round the full circle, the
   * first at azimuth 0: patch i is listed at (i - number145[r]) times
   * 360 / ring_division145[r]; the zenith patch at 0.
   */
  lemma PhiByRing(i: int)
    requires 0 <= i <= 144
    ensures i < 144 ==> PhiEntry(i) == (i - Number145[RingOf(i)]) as real * 360.0 / RingDivision145[RingOf(i)]
    ensures i == 144 ==> PhiEntry(i) == 0.0
  {
    var r := RingOf(i);
    RingListingSizes(r);
    if r < 7 {
      var j := i - Number145[r];
      assert PhiEntry(i) == PhiRings[r][j];
      PhiRingSpacing(r);
      PhiStepIsDivision(r);
      MulDiv(j as real, 360.0, RingDivision145[r]);
    }
  }

  lemma PhiStepIsDivision(r: int)
    requires 0 <= r < 7
    ensures RingDivision145[r] > 0.0 && PhiStep[r] == 360.0 / RingDivision145[r]
  {
  }

  // ---------------------------------------------------------------------
  // get_sky_patch_number

  /** patches[] of get_sky_patch_number: patches per altitude band, the zenith band counted as one. */
  const BandPatches: seq<int> := [30, 30, 24, 24, 18, 12, 6, 1]

  /** Ceiling of a real. */
  function Ceil(x: real): (c: int)
    ensures c as real - 1.0 < x <= c as real
  {
    -((-x).Floor)
  }

  /** Slot l of a band of n patches: azimuths in (l * 360/n, (l + 1) * 360/n]. */
  predicate InSlot(az: real, n: int, l: int)
    requires n >= 1
  {
    l as real * (360.0 / n as real) < az <= (l + 1) as real * (360.0 / n as real)
  }

  /** The slot holding azimuth az in a band of n patches. */
  function SlotOf(az: real, n: int): int
    requires n >= 1
  {
    Ceil(az * n as real / 360.0) - 1
  }

  /** The slot width 360 / n of a band of n patches: positive, and n of them make a full turn. */
  lemma Width(n: int)
    requires n >= 1
    ensures 360.0 / n as real > 0.0
    ensures 360.0 / (360.0 / n as real) == n as real
    ensures n as real * (360.0 / n as real) == 360.0
  {
  }

  /** Scaling by n / 360 is dividing by the slot width. */
  lemma ScaleIsDivide(az: real, n: int)
    requires n >= 1
    ensures az * n as real / 360.0 == az / (360.0 / n as real)
  {
  }

  /** Dividing by the slot width and multiplying back gives the azimuth. */
  lemma DivideBack(az: real, w: real)
    requires w > 0.0
    ensures az / w * w == az
  {
  }

  /** A product l * w divided by w gives l back. */
  lemma MulThenDivide(l: real, w: real)
    requires w > 0.0
    ensures l * w / w == l
  {
  }

  /** An azimuth in (0, 360] lies in slot SlotOf, which is one of the n slots. */
  lemma SlotOfCorrect(az: real, n: int)
    requires n >= 1 && 0.0 < az <= 360.0
    ensures 0 <= SlotOf(az, n) < n && InSlot(az, n, SlotOf(az, n))
  {
    var w := 360.0 / n as real;
    Width(n);
    ScaleIsDivide(az, n);
    var x := az / w;
    var s := SlotOf(az, n);
    assert s as real < x <= s as real + 1.0;
    DivLess(0.0, az, w);
    DivAtMost(az, 360.0, w);
    DivideBack(az, w);
    MulLess(s as real, x, w);
    MulAtMost(x, s as real + 1.0, w);
  }

  /** A slot that holds az is SlotOf(az, n), so az lies in (0, 360]. */
  lemma SlotUnique(az: real, n: int, l: int)
    requires n >= 1 && 0 <= l < n && InSlot(az, n, l)
    ensures 0.0 < az <= 360.0 && l == SlotOf(az, n)
  {
    Width(n);
    ScaleIsDivide(az, n);
    SlotBounds(az, l as real, 360.0 / n as real, n as real);
  }

  /** Slot bounds in terms of a width w of which nn make a full turn. */
  lemma SlotBounds(az: real, l: real, w: real, nn: real)
    requires w > 0.0 && 0.0 <= l && l + 1.0 <= nn && nn * w == 360.0
    requires l * w < az <= (l + 1.0) * w
    ensures 0.0 < az <= 360.0 && l < az / w <= l + 1.0
  {
    MulAtMost(0.0, l, w);
    MulAtMost(l + 1.0, nn, w);
    DivLess(l * w, az, w);
    DivAtMost(az, (l + 1.0) * w, w);
    MulThenDivide(l, w);
    MulThenDivide(l + 1.0, w);
  }

  /** An entry l * 360 / n of phi_ordered starts slot l of its ring. */
  lemma PhiSlot(phi: real, l: int, n: int, d: real, a: real)
    requires n >= 1 && d == n as real && phi == l as real * 360.0 / d && InSlot(a, n, l)
    ensures phi < a <= phi + 360.0 / d
  {
    var w := 360.0 / n as real;
    MulDiv(l as real, 360.0, d);
    assert (l + 1) as real * w == l as real * w + w;
  }

  lemma MulDiv(a: real, b: real, d: real)
    requires d != 0.0
    ensures a * b / d == a * (b / d)
  {
  }

  lemma MulLess(a: real, b: real, w: real)
    requires a < b && w > 0.0
    ensures a * w < b * w
  {
  }

  lemma MulAtMost(a: real, b: real, w: real)
    requires a <= b && w > 0.0
    ensures a * w <= b * w
  {
  }

  lemma DivLess(a: real, b: real, w: real)
    requires a < b && w > 0.0
    ensures a / w < b / w
  {
  }

  lemma DivAtMost(a: real, b: real, w: real)
    requires a <= b && w > 0.0
    ensures a / w <= b / w
  {
  }

  /**
   * The band tests of get_sky_patch_number on the altitude in degrees:
   * (band, first patch of the band, patch returned when no azimuth slot
   * matches). The tests cover [0, 90); any other altitude keeps the
   * initial values, those of the horizon band.
   */
  function BandAsWritten(alt: real): (b: (int, int, int))
    ensures 0 <= b.0 <= 7 && b.1 == Number145[b.0] && (b.2 == 0 || b.2 == 144)
  {
    if 0.0 <= alt < 12.0 then (0, 0, 0)
    else if 12.0 <= alt < 24.0 then (1, 30, 0)
    else if 24.0 <= alt < 36.0 then (2, 60, 0)
    else if 36.0 <= alt < 48.0 then (3, 84, 0)
    else if 48.0 <= alt < 60.0 then (4, 108, 0)
    else if 60.0 <= alt < 72.0 then (5, 126, 0)
    else if 72.0 <= alt < 84.0 then (6, 138, 0)
    else if 84.0 <= alt < 90.0 then (7, 144, 144)
    else (0, 0, 0)
  }

  /**
   * The patch get_sky_patch_number returns: the slot of the azimuth in
   * its band when the azimuth lies in (0, 360], otherwise the initial
   * patch of BandAsWritten.
   */
  function PatchAsWritten(alt: real, az: real): int
  {
    var (j, k, i0) := BandAsWritten(alt);
    if 0.0 < az <= 360.0 then k + SlotOf(az, BandPatches[j]) else i0
  }

  /**
   * get_sky_patch_number: pick the band by altitude, then scan the band's
   * slots for the one holding the azimuth; the result is always a patch
   * of the 145-patch sky.
   */
  method GetSkyPatchNumber(alt: real, az: real) returns (i: int)
    ensures i == PatchAsWritten(alt, az)
    ensures 0 <= i <= 144
  {
    var j, k := 0, 0;
    i := 0;
    if 0.0 <= alt && alt < 12.0 { j, k := 0, 0; }
    if 12.0 <= alt && alt < 24.0 { j, k := 1, 30; }
    if 24.0 <= alt && alt < 36.0 { j, k := 2, 60; }
    if 36.0 <= alt && alt < 48.0 { j, k := 3, 84; }
    if 48.0 <= alt && alt < 60.0 { j, k := 4, 108; }
    if 60.0 <= alt && alt < 72.0 { j, k := 5, 126; }
    if 72.0 <= alt && alt < 84.0 { j, k := 6, 138; }
    if 84.0 <= alt && alt < 90.0 { j, k, i := 7, 144, 144; }
    assert (j, k, i) == BandAsWritten(alt);
    ghost var i0 := i;
    var n := BandPatches[j];
    var l := 0;
    while l < n
      invariant 0 <= l <= n + 1
      invariant l <= n ==> i == i0 && forall m | 0 <= m < l :: !InSlot(az, n, m)
      invariant l == n + 1 ==> 0.0 < az <= 360.0 && i == k + SlotOf(az, n)
    {
      if (l + 1) as real * (360.0 / n as real) >= az && l as real * (360.0 / n as real) < az {
        SlotUnique(az, n, l);
        i := k + l;
        l := n;
      }
      l := l + 1;
    }
    if 0.0 < az <= 360.0 {
      SlotOfCorrect(az, n);
    }
  }

  /** The altitude band as evidently intended: 84 degrees and above, the zenith itself included, is the zenith band. */
  function BandCorrected(alt: real): (b: (int, int, int))
    ensures 0 <= b.0 <= 7 && b.1 == Number145[b.0]
  {
    if alt >= 84.0 then (7, 144, 144) else BandAsWritten(alt)
  }

  /** An atan2 azimuth in (-180, 180] taken into the (0, 360] range the slots cover. */
  function FullTurn(az: real): real
  {
    if az <= 0.0 then az + 360.0 else az
  }

  /** get_sky_patch_number as evidently intended: the zenith is patch 144 and every azimuth finds its slot. */
  function PatchCorrected(alt: real, az: real): int
  {
    var (j, k, _) := BandCorrected(alt);
    k + SlotOf(FullTurn(az), BandPatches[j])
  }

  /**
   * For every direction above the horizon the corrected patch lies in the
   * band of the altitude, is listed by theta_ordered at that band's zenith
   * angle, and is the patch whose phi_ordered slot holds the azimuth.
   */
  lemma PatchCorrectedInBand(alt: real, az: real)
    requires 0.0 <= alt <= 90.0 && -180.0 < az <= 180.0
    ensures var j := BandCorrected(alt).0; var i := PatchCorrected(alt, az);
      0 <= i <= 144 && Number145[j] <= i < Number145[j] + BandPatches[j] &&
      RingOf(i) == j && ThetaEntry(i) == 84.0 - 12.0 * j as real &&
      (j < 7 ==> PhiEntry(i) < FullTurn(az) <= PhiEntry(i) + 360.0 / RingDivision145[j])
  {
    PatchCorrectedRing(alt, az);
    var j := BandCorrected(alt).0;
    if j < 7 {
      PatchCorrectedSlot(alt, az);
    }
  }

  lemma PatchCorrectedRing(alt: real, az: real)
    requires -180.0 < az <= 180.0
    ensures var j := BandCorrected(alt).0; var i := PatchCorrected(alt, az);
      0 <= i <= 144 && Number145[j] <= i < Number145[j] + BandPatches[j] &&
      RingOf(i) == j && ThetaEntry(i) == 84.0 - 12.0 * j as real
  {
    var j := BandCorrected(alt).0;
    SlotOfCorrect(FullTurn(az), BandPatches[j]);
    var i := PatchCorrected(alt, az);
    assert RingOf(i) == j;
    ThetaByRing(i);
  }

  lemma PatchCorrectedSlot(alt: real, az: real)
    requires -180.0 < az <= 180.0 && BandCorrected(alt).0 < 7
    ensures var j := BandCorrected(alt).0; var i := PatchCorrected(alt, az);
      0 <= i < 144 && PhiEntry(i) < FullTurn(az) <= PhiEntry(i) + 360.0 / RingDivision145[j]
  {
    var (j, k, _) := BandCorrected(alt);
    BandSlotPhi(j, FullTurn(az));
  }

  /** The patch of slot SlotOf(a) in band j is listed by phi_ordered at the start of the slot holding a. */
  lemma BandSlotPhi(j: int, a: real)
    requires 0 <= j < 7 && 0.0 < a <= 360.0
    ensures var i := Number145[j] + SlotOf(a, BandPatches[j]);
      0 <= i < 144 && PhiEntry(i) < a <= PhiEntry(i) + 360.0 / RingDivision145[j]
  {
    var n := BandPatches[j];
    SlotOfCorrect(a, n);
    var l := SlotOf(a, n);
    PhiInBand(j, l);
    PhiSlot(PhiEntry(Number145[j] + l), l, n, RingDivision145[j], a);
  }

  /** Slot l of band j is patch number145[j] + l, listed by phi_ordered at l times the slot width. */
  lemma PhiInBand(j: int, l: int)
    requires 0 <= j < 7 && 0 <= l < BandPatches[j]
    ensures RingDivision145[j] == BandPatches[j] as real
    ensures var i := Number145[j] + l;
      0 <= i < 144 && PhiEntry(i) == l as real * 360.0 / RingDivision145[j]
  {
    BandsAreRings(j);
    var i := Number145[j] + l;
    RingOfIs(i, j);
    PhiByRing(i);
    assert i - Number145[j] == l;
  }

  /** Below the zenith, the bands of get_sky_patch_number are the rings of the 145-patch tables. */
  lemma BandsAreRings(j: int)
    requires 0 <= j < 7
    ensures RingDivision145[j] == BandPatches[j] as real
    ensures Number145[j + 1] == Number145[j] + BandPatches[j] <= 144
  {
  }

  /** The ring whose first-patch range holds i is the ring RingOf finds. */
  lemma RingOfIs(i: int, j: int)
    requires 0 <= j < 7 && Number145[j] <= i < Number145[j + 1]
    ensures 0 <= i < 144 && RingOf(i) == j
  {
    assert forall a, b | 0 <= a < b <= 7 :: Number145[a] < Number145[b];
  }

  /** As written, the zenith direction (altitude 90) lands in the horizon band: patch 0 for azimuth 6, not 144. */
  lemma ZenithMissesZenithPatch()
    ensures PatchAsWritten(90.0, 6.0) == 0
    ensures PatchCorrected(90.0, 6.0) == 144
  {
    SlotOfCorrect(6.0, 30);
    SlotUnique(6.0, 30, 0);
    SlotOfCorrect(6.0, 1);
    SlotUnique(6.0, 1, 0);
  }

  /**
   * As written, a direction at altitude 42 and azimuth -90 (any negative
   * azimuth below the zenith band) gets patch 0 of the horizon band
   * instead of a patch of its own band (84..107).
   */
  lemma NegativeAzimuthMissesBand()
    ensures PatchAsWritten(42.0, -90.0) == 0
    ensures PatchCorrected(42.0, -90.0) == 101
  {
    SlotOfCorrect(270.0, 24);
    SlotUnique(270.0, 24, 17);
  }

  /**
   * The cases of get_sky_patch_number as written: below altitude 90 and
   * for azimuths in (0, 360] it agrees with the corrected lookup; any
   * other azimuth gets the band's initial patch (144 in the zenith band,
   * else 0); at altitude 90 and above the azimuth is looked up among the
   * 30 slots of the horizon band, so the result is patch 0 only for
   * azimuths up to 12 degrees.
   */
  lemma PatchAsWrittenCases(alt: real, az: real)
    ensures alt < 90.0 && 0.0 < az <= 360.0 ==> PatchAsWritten(alt, az) == PatchCorrected(alt, az)
    ensures !(0.0 < az <= 360.0) ==> PatchAsWritten(alt, az) == (if 84.0 <= alt < 90.0 then 144 else 0)
    ensures alt >= 90.0 && 0.0 < az <= 360.0 ==>
      var i := PatchAsWritten(alt, az); 0 <= i < 30 && InSlot(az, 30, i) && (i == 0 <==> az <= 12.0)
  {
    if 0.0 < az <= 360.0 {
      SlotOfCorrect(az, 30);
      if alt >= 90.0 {
        var i := SlotOf(az, 30);
        Width(30);
        assert 360.0 / 30 as real == 12.0;
        if az <= 12.0 {
          SlotUnique(az, 30, 0);
        }
      }
    }
  }


  // ---------------------------------------------------------------------
  // Direct patch of the sun in write_segments_direct (coupling mode 5)

  /** ringnumber for the 145-patch sky: the altitude in 12-degree rings, truncated. */
  function Ring145(alt: real): (r: int)
    requires 0.0 <= alt <= 90.0
    ensures 0 <= r <= 7
  {
    Trunc(1.0 * alt / 12.0)
  }

  /** ringnumber for the 2305-patch sky: the altitude in rings of 3.157895 degrees, truncated. */
  function Ring2305(alt: real): (r: int)
    requires 0.0 <= alt <= 90.0
    ensures 0 <= r <= 28
  {
    Trunc(1.0 * alt / 3.157895)
  }

  /**
   * The patch offset within a ring of rd patches for azimuth az: azimuths
   * in (-90, 180) count from 270 - az, the others from -90 - az, each
   * divided by the patch width 360 / rd and truncated. A zero ring size
   * (the zenith) makes the width infinite in floating point and the
   * offset 0.
   */
  function RingOffset(az: real, rd: real): int
  {
    if rd == 0.0 then 0
    else if -90.0 < az < 180.0 then Trunc((270.0 - az) / (360.0 / rd))
    else Trunc((-90.0 - az) / (360.0 / rd))
  }

  /** chosen_value for the 145-patch sky. */
  function DirectPatch145(alt: real, az: real): int
    requires 0.0 <= alt <= 90.0
  {
    var r := Ring145(alt);
    Number145[r] + RingOffset(az, RingDivision145[r])
  }

  /** chosen_value for the 2305-patch sky. */
  function DirectPatch2305(alt: real, az: real): int
    requires 0.0 <= alt <= 90.0
  {
    var r := Ring2305(alt);
    Number2305[r] + RingOffset(az, RingDivision2305[r])
  }

  /** A count t in [0, 360) of degrees divided by the patch width 360 / n truncates to one of the n offsets. */
  lemma OffsetInRange(t: real, n: int)
    requires n >= 1 && 0.0 <= t < 360.0
    ensures 0 <= Trunc(t / (360.0 / n as real)) < n
  {
    var w := 360.0 / n as real;
    Width(n);
    DivAtMost(0.0, t, w);
    DivLess(t, 360.0, w);
  }

  /** For azimuths in [-180, 180) the offset picks one of the rd patches of the ring. */
  lemma RingOffsetInRing(az: real, n: int)
    requires n >= 1 && -180.0 <= az < 180.0
    ensures 0 <= RingOffset(az, n as real) < n
  {
    if -90.0 < az {
      OffsetInRange(270.0 - az, n);
    } else {
      OffsetInRange(-90.0 - az, n);
    }
  }

  /**
   * For the sun above the horizon with an azimuth in [-180, 180), the
   * direct patch lies in the ring of its altitude, so within 0..144 and
   * 0..2304.
   */
  lemma DirectPatchInRing(alt: real, az: real)
    requires 0.0 <= alt <= 90.0 && -180.0 <= az < 180.0
    ensures var r := Ring145(alt); var i := DirectPatch145(alt, az);
      0 <= i <= 144 && Number145[r] <= i && (r < 7 ==> i < Number145[r + 1])
    ensures var r := Ring2305(alt); var i := DirectPatch2305(alt, az);
      0 <= i <= 2304 && Number2305[r] <= i && (r < 28 ==> i < Number2305[r + 1])
  {
    RingTablesArePrefixSums();
    DirectPatchInRing145(alt, az);
    DirectPatchInRing2305(alt, az);
  }

  lemma DirectPatchInRing145(alt: real, az: real)
    requires 0.0 <= alt <= 90.0 && -180.0 <= az < 180.0
    requires Number145[7] == 144 && forall r | 0 <= r < 7 :: Number145[r + 1] as real == Number145[r] as real + RingDivision145[r]
    ensures var r := Ring145(alt); var i := DirectPatch145(alt, az);
      0 <= i <= 144 && Number145[r] <= i && (r < 7 ==> i < Number145[r + 1])
  {
    var r := Ring145(alt);
    if r < 7 {
      RingOffsetInRing(az, Number145[r + 1] - Number145[r]);
    }
  }

  lemma DirectPatchInRing2305(alt: real, az: real)
    requires 0.0 <= alt <= 90.0 && -180.0 <= az < 180.0
    requires Number2305[28] == 2304 && forall r | 0 <= r < 28 :: Number2305[r + 1] as real == Number2305[r] as real + RingDivision2305[r]
    ensures var r := Ring2305(alt); var i := DirectPatch2305(alt, az);
      0 <= i <= 2304 && Number2305[r] <= i && (r < 28 ==> i < Number2305[r + 1])
  {
    var r := Ring2305(alt);
    if r < 28 {
      RingOffsetInRing(az, Number2305[r + 1] - Number2305[r]);
    }
  }


  /** As written, azimuth 180 takes the second formula: -270 / 12 truncates to -22, below the ring's first patch. */
  lemma DirectPatchAzimuth180()
    ensures DirectPatch145(0.0, 180.0) == -22
    ensures DirectPatch145Corrected(0.0, 180.0) == 7
  {
  }

  /** The offset as evidently intended: azimuth 180 counts from 270 - az like the rest of (-90, 180]. */
  function RingOffsetCorrected(az: real, rd: real): int
  {
    if rd == 0.0 then 0
    else if -90.0 < az <= 180.0 then Trunc((270.0 - az) / (360.0 / rd))
    else Trunc((-90.0 - az) / (360.0 / rd))
  }

  function DirectPatch145Corrected(alt: real, az: real): int
    requires 0.0 <= alt <= 90.0
  {
    var r := Ring145(alt);
    Number145[r] + RingOffsetCorrected(az, RingDivision145[r])
  }

  function DirectPatch2305Corrected(alt: real, az: real): int
    requires 0.0 <= alt <= 90.0
  {
    var r := Ring2305(alt);
    Number2305[r] + RingOffsetCorrected(az, RingDivision2305[r])
  }

  /**
   * The two offsets differ only at azimuth 180, where the offset as
   * written falls below the first patch of every ring of two or more
   * patches.
   */
  lemma RingOffsetCases(az: real, n: int)
    requires n >= 1
    ensures az != 180.0 ==> RingOffset(az, n as real) == RingOffsetCorrected(az, n as real)
    ensures n >= 2 ==> RingOffset(180.0, n as real) < 0 <= RingOffsetCorrected(180.0, n as real)
  {
    if n >= 2 {
      var w := 360.0 / n as real;
      Width(n);
      assert w <= 180.0;
      DivAtMost(-270.0, -1.5 * w, w);
      MulThenDivide(-1.5, w);
      DivLess(0.0, 90.0, w);
    }
  }

  /** chosen_value agrees with the corrected one off azimuth 180, and at 180 it leaves the ring below the zenith. */
  lemma DirectPatchCases(alt: real, az: real)
    requires 0.0 <= alt <= 90.0
    ensures az != 180.0 ==> DirectPatch145(alt, az) == DirectPatch145Corrected(alt, az)
    ensures az != 180.0 ==> DirectPatch2305(alt, az) == DirectPatch2305Corrected(alt, az)
    ensures Ring145(alt) < 7 ==> DirectPatch145(alt, 180.0) < Number145[Ring145(alt)]
    ensures Ring2305(alt) < 28 ==> DirectPatch2305(alt, 180.0) < Number2305[Ring2305(alt)]
  {
    RingTablesArePrefixSums();
    DirectPatchCases145(alt, az);
    DirectPatchCases2305(alt, az);
  }

  lemma DirectPatchCases145(alt: real, az: real)
    requires 0.0 <= alt <= 90.0
    requires Number145[7] == 144 && forall r | 0 <= r < 7 :: Number145[r + 1] as real == Number145[r] as real + RingDivision145[r]
    ensures az != 180.0 ==> DirectPatch145(alt, az) == DirectPatch145Corrected(alt, az)
    ensures Ring145(alt) < 7 ==> DirectPatch145(alt, 180.0) < Number145[Ring145(alt)]
  {
    var r := Ring145(alt);
    if r < 7 {
      var n := Number145[r + 1] - Number145[r];
      assert RingDivision145[r] == n as real;
      RingOffsetCases(az, n);
      RingOffsetCases(180.0, n);
    }
  }

  lemma DirectPatchCases2305(alt: real, az: real)
    requires 0.0 <= alt <= 90.0
    requires Number2305[28] == 2304 && forall r | 0 <= r < 28 :: Number2305[r + 1] as real == Number2305[r] as real + RingDivision2305[r]
    ensures az != 180.0 ==> DirectPatch2305(alt, az) == DirectPatch2305Corrected(alt, az)
    ensures Ring2305(alt) < 28 ==> DirectPatch2305(alt, 180.0) < Number2305[Ring2305(alt)]
  {
    var r := Ring2305(alt);
    if r < 28 {
      var n := Number2305[r + 1] - Number2305[r];
      assert RingDivision2305[r] == n as real;
      RingOffsetCases(az, n);
      RingOffsetCases(180.0, n);
    }
  }

  /** The corrected offset picks a patch of the ring for every azimuth in [-180, 180]. */
  lemma RingOffsetCorrectedInRing(az: real, n: int)
    requires n >= 1 && -180.0 <= az <= 180.0
    ensures 0 <= RingOffsetCorrected(az, n as real) < n
  {
    if -90.0 < az {
      OffsetInRange(270.0 - az, n);
    } else {
      OffsetInRange(-90.0 - az, n);
    }
  }

  /** With the correction every azimuth in [-180, 180] lands in the ring of its altitude. */
  lemma DirectPatchCorrectedInRing(alt: real, az: real)
    requires 0.0 <= alt <= 90.0 && -180.0 <= az <= 180.0
    ensures var r := Ring145(alt); var i := DirectPatch145Corrected(alt, az);
      0 <= i <= 144 && Number145[r] <= i && (r < 7 ==> i < Number145[r + 1])
    ensures var r := Ring2305(alt); var i := DirectPatch2305Corrected(alt, az);
      0 <= i <= 2304 && Number2305[r] <= i && (r < 28 ==> i < Number2305[r + 1])
  {
    RingTablesArePrefixSums();
    DirectPatchCorrectedInRing145(alt, az);
    DirectPatchCorrectedInRing2305(alt, az);
  }

  lemma DirectPatchCorrectedInRing145(alt: real, az: real)
    requires 0.0 <= alt <= 90.0 && -180.0 <= az <= 180.0
    requires Number145[7] == 144 && forall r | 0 <= r < 7 :: Number145[r + 1] as real == Number145[r] as real + RingDivision145[r]
    ensures var r := Ring145(alt); var i := DirectPatch145Corrected(alt, az);
      0 <= i <= 144 && Number145[r] <= i && (r < 7 ==> i < Number145[r + 1])
  {
    var r := Ring145(alt);
    if r < 7 {
      RingOffsetCorrectedInRing(az, Number145[r + 1] - Number145[r]);
    }
  }

  lemma DirectPatchCorrectedInRing2305(alt: real, az: real)
    requires 0.0 <= alt <= 90.0 && -180.0 <= az <= 180.0
    requires Number2305[28] == 2304 && forall r | 0 <= r < 28 :: Number2305[r + 1] as real == Number2305[r] as real + RingDivision2305[r]
    ensures var r := Ring2305(alt); var i := DirectPatch2305Corrected(alt, az);
      0 <= i <= 2304 && Number2305[r] <= i && (r < 28 ==> i < Number2305[r + 1])
  {
    var r := Ring2305(alt);
    if r < 28 {
      RingOffsetCorrectedInRing(az, Number2305[r + 1] - Number2305[r]);
    }
  }


  // ---------------------------------------------------------------------
  // The chain of non-empty direct patches

  /** The first patch from k on (before end) with positive luminance, or end when there is none. */
  function NextLit(lum: seq<real>, k: int, end: int): (r: int)
    requires 0 <= k <= end <= |lum|
    ensures k <= r <= end && (r < end ==> lum[r] > 0.0)
    ensures forall j | k <= j < r :: lum[j] <= 0.0
    decreases end - k
  {
    if k == end then end else if lum[k] > 0.0 then k else NextLit(lum, k + 1, end)
  }

  /** Skipping patches without luminance does not change the next lit patch. */
  lemma {:induction false} NextLitSkips(lum: seq<real>, k: int, m: int, end: int)
    requires 0 <= k <= m <= end <= |lum|
    requires forall j | k <= j < m :: lum[j] <= 0.0
    ensures NextLit(lum, k, end) == NextLit(lum, m, end)
    decreases m - k
  {
    if k < m {
      NextLitSkips(lum, k + 1, m, end);
    }
  }

  /** A link of the chain: the first patch base and the lit patches after it. */
  predicate ChainMember(lum: seq<real>, base: int, end: int, j: int)
    requires 0 <= base && end <= |lum|
  {
    j == base || (base < j < end && lum[j] > 0.0)
  }

  /**
   * The chain built over patches base .. i - 1 of the lit-patch listing ls:
   * the patch last is the latest link and points to end; no patch after it
   * is lit; every earlier link points to the next lit patch; every other
   * entry, the first patch apart, still holds its original value.
   */
  ghost predicate Linked(ls: seq<real>, nx: seq<int>, orig: seq<int>, base: int, end: int, i: int, last: int)
    requires 0 <= base <= i <= end <= |ls| && end <= |nx| && |nx| == |orig|
  {
    (last == base || (base < last < i && ls[last] > 0.0)) &&
    0 <= last < |nx| && nx[last] == end &&
    (forall j | last < j < i :: ls[j] <= 0.0) &&
    (forall j | base <= j < i && ChainMember(ls, base, end, j) && j != last :: nx[j] == NextLit(ls, j + 1, end)) &&
    (forall j | 0 <= j < |nx| && !(base <= j < i && ChainMember(ls, base, end, j)) && j != base :: nx[j] == orig[j])
  }

  /** A lit patch i joins the chain: the latest link moves to it and the previous one points at it. */
  lemma LinkStep(ls: seq<real>, nx: seq<int>, orig: seq<int>, base: int, end: int, i: int, last: int)
    requires 0 <= base < i < end <= |ls| && end <= |nx| && |nx| == |orig|
    requires Linked(ls, nx, orig, base, end, i, last) && ls[i] > 0.0
    ensures Linked(ls, nx[last := i][i := end], orig, base, end, i + 1, i)
  {
    NextLitSkips(ls, last + 1, i, end);
  }

  /** A patch that is the first or unlit leaves the chain as it is. */
  lemma SkipStep(ls: seq<real>, nx: seq<int>, orig: seq<int>, base: int, end: int, i: int, last: int)
    requires 0 <= base <= i < end <= |ls| && end <= |nx| && |nx| == |orig|
    requires Linked(ls, nx, orig, base, end, i, last) && !(i > base && ls[i] > 0.0)
    ensures Linked(ls, nx, orig, base, end, i + 1, last)
  {
  }

  /** Once every patch is scanned, the latest link too points to the next lit patch: there is none, so to end. */
  lemma ChainDone(ls: seq<real>, nx: seq<int>, orig: seq<int>, base: int, end: int, last: int)
    requires 0 <= base < end <= |ls| && end <= |nx| && |nx| == |orig|
    requires Linked(ls, nx, orig, base, end, end, last)
    ensures forall j | base <= j < end && ChainMember(ls, base, end, j) :: nx[j] == NextLit(ls, j + 1, end)
  {
    NextLitSkips(ls, last + 1, end, end);
  }

  /**
   * The NextNonEmptySkyPatch chain of write_segments_direct over the n
   * direct patches from base: the first patch and every lit patch after
   * it point to the next lit patch, the last one to base + n; no other
   * entry changes.
   */
  method BuildChain(lum: array<real>, next: array<int>, base: int, n: int)
    requires 0 <= base < next.Length && 0 <= n && base + n <= lum.Length && base + n <= next.Length
    modifies next
    ensures n == 0 ==> next[base] == base
    ensures n >= 1 ==> forall j | base <= j < base + n && ChainMember(lum[..], base, base + n, j) ::
      next[j] == NextLit(lum[..], j + 1, base + n)
    ensures forall j | 0 <= j < next.Length && !(base <= j < base + n && ChainMember(lum[..], base, base + n, j)) && j != base ::
      next[j] == old(next[j])
  {
    var end := base + n;
    ghost var ls := lum[..];
    ghost var orig := next[..];
    var last := base;
    next[base] := end;
    for i := base to end
      invariant 0 <= last < next.Length
      invariant Linked(ls, next[..], orig, base, end, i, last)
    {
      if i > base && lum[i] > 0.0 {
        ghost var before := next[..];
        next[last] := i;
        next[i] := end;
        assert next[..] == before[last := i][i := end];
        LinkStep(ls, before, orig, base, end, i, last);
        last := i;
      } else {
        SkipStep(ls, next[..], orig, base, end, i, last);
      }
    }
    if n >= 1 {
      ChainDone(ls, next[..], orig, base, end, last);
    }
  }

}
