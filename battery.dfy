/** Battery capacity estimation: the NiMH voltage/capacity table, the piecewise-linear
    estimator `NiMH_CalculateLevel`, and the integer arithmetic `check_battery_level`
    performs around it (ADC sample to millivolts, percent to ZCL half-percent units). */
module Battery {
  import opened CInt

  datatype VoltageCapacity = VoltageCapacity(voltage: uint16, capacity: uint8)

  /** The NiMH discharge curve, highest voltage first (the firmware's `vcPairs`). */
  const VcPairs: seq<VoltageCapacity> := [
    VoltageCapacity(1450, 100), VoltageCapacity(1350, 92), VoltageCapacity(1300, 78),
    VoltageCapacity(1250, 24), VoltageCapacity(1220, 13), VoltageCapacity(1160, 5),
    VoltageCapacity(1100, 2), VoltageCapacity(900, 0)]

  /** What the estimator assumes of its table: at least two rows, voltages strictly
      descending and capacities non-increasing. */
  predicate Descending(t: seq<VoltageCapacity>)
  {
    |t| >= 2 &&
    forall i, j :: 0 <= i < j < |t| ==> t[j].voltage < t[i].voltage && t[j].capacity <= t[i].capacity
  }

  lemma VcPairsDescending()
    ensures Descending(VcPairs)
  {
  }

  // ---------------------------------------------------------------------------
  // The estimator as a specification function

  /** Index of the first row at or after `from` whose voltage lies strictly below `v`,
      or |t| when there is none: the row at which the firmware's scan stops. */
  function FirstBelow(t: seq<VoltageCapacity>, v: int, from: nat): (i: nat)
    requires from <= |t|
    ensures from <= i <= |t|
    ensures forall j :: from <= j < i ==> v <= t[j].voltage
    ensures i < |t| ==> t[i].voltage < v
    decreases |t| - from
  {
    if from == |t| then |t|
    else if t[from].voltage < v then from
    else FirstBelow(t, v, from + 1)
  }

  /** Linear interpolation between rows i-1 and i, with the division truncating
      (the numerator is non-negative wherever the estimator uses it). */
  function Interpolate(t: seq<VoltageCapacity>, i: nat, v: int): int
    requires 0 < i < |t| && t[i].voltage < t[i - 1].voltage
  {
    t[i].capacity
      + (v - t[i].voltage) * (t[i - 1].capacity - t[i].capacity) / (t[i - 1].voltage - t[i].voltage)
  }

  /** The capacity the estimator reports for a voltage `v` in millivolts:
      clamp high above the first row, clamp low at or below the last row,
      otherwise interpolate in the bracketing interval. */
  function Level(t: seq<VoltageCapacity>, v: int): int
    requires Descending(t)
  {
    var i := FirstBelow(t, v, 0);
    if i == 0 then t[0].capacity
    else if i == |t| then t[|t| - 1].capacity
    else Interpolate(t, i, v)
  }

  // ---------------------------------------------------------------------------
  // Arithmetic helpers

  lemma MulMonotone(x: int, y: int, d: int)
    requires x <= y && 0 <= d
    ensures x * d <= y * d
  {
    assert y * d - x * d == (y - x) * d;
  }

  lemma DivMonotone(a: int, b: int, w: int)
    requires 0 <= a <= b && 0 < w
    ensures a / w <= b / w
  {
    var qa, qb := a / w, b / w;
    if qa > qb {
      MulMonotone(qb + 1, qa, w);
    }
  }

  lemma MulDivCancel(w: int, d: int)
    requires 0 < w
    ensures w * d / w == d
  {
    var q, r := w * d / w, w * d % w;
    assert w * (d - q) == r;
    if d - q >= 1 {
      MulMonotone(1, d - q, w);
    } else if d - q <= -1 {
      MulMonotone(d - q, -1, w);
    }
  }

  /** A scaled fraction x*d/w of d stays within [0, d], and is exactly d when x == w. */
  lemma ScaledFraction(x: int, d: int, w: int)
    requires 0 <= x <= w && 0 <= d && 0 < w
    ensures 0 <= x * d / w <= d
    ensures x == w ==> x * d / w == d
  {
    MulMonotone(0, x, d);
    MulMonotone(x, w, d);
    DivMonotone(x * d, w * d, w);
    MulDivCancel(w, d);
  }

  // ---------------------------------------------------------------------------
  // Properties of the estimator

  /** The scan stops at `i` exactly when every earlier row is at or above `v`
      and row `i` (if any) is below it. */
  lemma FirstBelowIs(t: seq<VoltageCapacity>, v: int, i: nat)
    requires i <= |t|
    requires forall j :: 0 <= j < i ==> v <= t[j].voltage
    requires i < |t| ==> t[i].voltage < v
    ensures FirstBelow(t, v, 0) == i
  {
  }

  /** Above the first row the estimate is the first row's capacity (clamp high). */
  lemma LevelAboveTable(t: seq<VoltageCapacity>, v: int)
    requires Descending(t) && t[0].voltage < v
    ensures Level(t, v) == t[0].capacity
  {
  }

  /** At or below the last row the estimate is the last row's capacity (clamp low). */
  lemma LevelBelowTable(t: seq<VoltageCapacity>, v: int)
    requires Descending(t) && v <= t[|t| - 1].voltage
    ensures Level(t, v) == t[|t| - 1].capacity
  {
    FirstBelowIs(t, v, |t|);
  }

  /** Strictly above row i and at most row i-1's voltage, the estimate lies between
      the two rows' capacities. */
  lemma LevelBetweenRows(t: seq<VoltageCapacity>, i: nat, v: int)
    requires Descending(t) && 0 < i < |t|
    requires t[i].voltage < v <= t[i - 1].voltage
    ensures FirstBelow(t, v, 0) == i
    ensures t[i].capacity <= Level(t, v) <= t[i - 1].capacity
  {
    FirstBelowIs(t, v, i);
    ScaledFraction(v - t[i].voltage, t[i - 1].capacity - t[i].capacity, t[i - 1].voltage - t[i].voltage);
  }

  /** At every breakpoint voltage the estimate is that row's capacity exactly. */
  lemma LevelAtBreakpoint(t: seq<VoltageCapacity>, k: nat)
    requires Descending(t) && k < |t|
    ensures Level(t, t[k].voltage) == t[k].capacity
  {
    var v := t[k].voltage;
    if k == |t| - 1 {
      LevelBelowTable(t, v);
    } else {
      FirstBelowIs(t, v, k + 1);
      ScaledFraction(v - t[k + 1].voltage, t[k].capacity - t[k + 1].capacity, t[k].voltage - t[k + 1].voltage);
    }
  }

  /** The estimate never leaves the range spanned by the table's capacities. */
  lemma LevelBounds(t: seq<VoltageCapacity>, v: int)
    requires Descending(t)
    ensures t[|t| - 1].capacity <= Level(t, v) <= t[0].capacity
  {
    var i := FirstBelow(t, v, 0);
    if 0 < i < |t| {
      LevelBetweenRows(t, i, v);
    }
  }

  /** A higher voltage never gives a lower estimate. */
  lemma LevelMonotone(t: seq<VoltageCapacity>, v1: int, v2: int)
    requires Descending(t) && v1 <= v2
    ensures Level(t, v1) <= Level(t, v2)
  {
    var i1, i2 := FirstBelow(t, v1, 0), FirstBelow(t, v2, 0);
    assert i2 <= i1;
    if i1 == i2 {
      if 0 < i1 < |t| {
        var w := t[i1 - 1].voltage - t[i1].voltage;
        var d := t[i1 - 1].capacity - t[i1].capacity;
        MulMonotone(v1 - t[i1].voltage, v2 - t[i1].voltage, d);
        MulMonotone(0, v1 - t[i1].voltage, d);
        DivMonotone((v1 - t[i1].voltage) * d, (v2 - t[i1].voltage) * d, w);
      }
    } else if i2 == 0 {
      LevelBounds(t, v1);
    } else {
      LevelBetweenRows(t, i2, v2);
      if i1 < |t| {
        LevelBetweenRows(t, i1, v1);
      }
    }
  }

  /** The worked example: 1400 mV lies between 1450 mV (100 %) and 1350 mV (92 %). */
  lemma LevelExample()
    ensures Level(VcPairs, 1400) == 96
  {
    VcPairsDescending();
    FirstBelowIs(VcPairs, 1400, 1);
  }

  // ---------------------------------------------------------------------------
  // The estimator as the firmware runs it

  /** `NiMH_CalculateLevel`: scan the table from the highest voltage down and return at
      the first row below `voltage`; the 32-bit intermediate is cast to `uint8_t`. */
  method CalculateLevel(voltage: uint16) returns (level: uint8)
    ensures level == Level(VcPairs, voltage)
  {
    VcPairsDescending();
    for i := 0 to |VcPairs|
      invariant forall j :: 0 <= j < i ==> voltage <= VcPairs[j].voltage
    {
      if voltage > VcPairs[i].voltage {
        if i == 0 {
          return VcPairs[0].capacity;
        } else {
          var res := (voltage - VcPairs[i].voltage) * (VcPairs[i - 1].capacity - VcPairs[i].capacity)
                     / (VcPairs[i - 1].voltage - VcPairs[i].voltage);
          res := res + VcPairs[i].capacity;
          assert res == Interpolate(VcPairs, i, voltage);
          LevelBetweenRows(VcPairs, i, voltage);
          return ToUint8(res);
        }
      }
    }
    FirstBelowIs(VcPairs, voltage, |VcPairs|);
    return VcPairs[|VcPairs| - 1].capacity;
  }

  // ---------------------------------------------------------------------------
  // The arithmetic around the estimator in `check_battery_level`

  const AdcResolutionBits: nat := 14
  /** 2^14: the SAADC's 14-bit full scale; `>> 14` on a non-negative value divides by it. */
  const AdcFullScale: nat := 0x4000
  const AdcReferenceMillivolts: nat := 600
  const AdcGainReciprocal: nat := 6

  /** `(sample * ref_mv * gainrecip) >> resolution`: the ADC reading in millivolts
      (gain 1/6 against the 600 mV internal reference). */
  function AdcMillivolts(sample: uint16): (mv: nat)
    ensures sample * AdcReferenceMillivolts * AdcGainReciprocal <= Int32Max
    ensures mv * AdcFullScale <= sample * 3600 < (mv + 1) * AdcFullScale
    ensures mv < 14400 && (sample < AdcFullScale ==> mv < 3600)
  {
    sample * AdcReferenceMillivolts * AdcGainReciprocal / AdcFullScale
  }

  /** More ADC counts never give fewer millivolts. */
  lemma AdcMillivoltsMonotone(s1: uint16, s2: uint16)
    requires s1 <= s2
    ensures AdcMillivolts(s1) <= AdcMillivolts(s2)
  {
    MulMonotone(s1, s2, AdcReferenceMillivolts * AdcGainReciprocal);
    DivMonotone(s1 * AdcReferenceMillivolts * AdcGainReciprocal,
                s2 * AdcReferenceMillivolts * AdcGainReciprocal, AdcFullScale);
  }

  /** `percentage_attribute = battery_level * 2` stored in a `zb_uint8_t`:
      BatteryPercentageRemaining counts half percent. */
  function PercentageAttribute(level: uint8): (r: uint8)
    ensures level <= 100 ==> r == 2 * level && r <= 200
    ensures level < 0x80 ==> r / 2 == level && r % 2 == 0
  {
    ToUint8(level * 2)
  }

  /** The BatteryPercentageRemaining value `check_battery_level` writes for an ADC sample. */
  function BatteryAttribute(sample: uint16): (r: uint8)
    ensures r <= 200 && r % 2 == 0
    ensures r == 2 * Level(VcPairs, AdcMillivolts(sample))
  {
    VcPairsDescending();
    LevelBounds(VcPairs, ToUint16(AdcMillivolts(sample)));
    PercentageAttribute(Level(VcPairs, ToUint16(AdcMillivolts(sample))))
  }

  /** The reported battery percentage never drops when the ADC reading rises. */
  lemma BatteryAttributeMonotone(s1: uint16, s2: uint16)
    requires s1 <= s2
    ensures BatteryAttribute(s1) <= BatteryAttribute(s2)
  {
    VcPairsDescending();
    AdcMillivoltsMonotone(s1, s2);
    LevelMonotone(VcPairs, AdcMillivolts(s1), AdcMillivolts(s2));
  }
}
