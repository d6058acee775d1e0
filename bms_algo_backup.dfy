/**
 * The earlier estimator of bms_algo_backup.c. It shares the header, the
 * current-sensor selection, the index scan and the Kalman block with
 * bms_algo.c, and differs in four places:
 *  - the interpolation runs along x first, then y, and has no zero-width
 *    guard;
 *  - the OCV lookup passes 100 as the size of a 440-point voltage axis, over
 *    a 440-row table whose first 100 rows hold their own row number;
 *  - the counter subtracts the tick's charge;
 *  - capacity is adapted through an accumulator on every rest tick once the
 *    rest time is reached (there is no once-per-period latch), after which
 *    the SOC and the counter are resynchronised to the OCV reading.
 */
module BmsAlgoBackup {
  import opened CArith
  import opened BmsHeader
  import opened UpdateStages
  import BmsLookup
  import BmsAlgo
  import LookupProperties

  // ---------------------------------------------------------------------
  // Current sensing
  // ---------------------------------------------------------------------

  /** BMS_GetCurrent: the same channel selection as the live estimator. */
  function GetCurrent(adcCh1Volts: real, adcCh2Volts: real): (amps: real)
    ensures amps == BmsAlgo.GetCurrent(adcCh1Volts, adcCh2Volts)
  {
    var currentCh1 := (adcCh1Volts - 2.5) / 0.0267;
    var currentCh2 := (adcCh2Volts - 2.5) / 0.004;
    if Abs(currentCh1) <= MaxCurrentCh1 then currentCh1 else currentCh2
  }

  // ---------------------------------------------------------------------
  // Interpolation
  // ---------------------------------------------------------------------

  /**
   * A single-precision result: a finite value, or the infinity or NaN that
   * a division by a zero cell width produces.
   */
  datatype FloatValue = Finite(value: real) | NonFinite

  /**
   * What BMS_BilinearInterpolate returns: the cell the two scans select,
   * interpolated along x at both y samples and then along y. A cell of zero
   * width on either axis divides by zero, which gives no finite value.
   */
  function Interpolated(x: real, y: real, xAxis: seq<real>, yAxis: seq<real>, table: seq<real>,
                        xSize: int, ySize: int): FloatValue
    requires BmsLookup.LookupShape(xAxis, yAxis, table, xSize, ySize)
  {
    var i := BmsLookup.Segment(xAxis, xSize, x);
    var j := BmsLookup.Segment(yAxis, ySize, y);
    if xAxis[i + 1] - xAxis[i] == 0.0 || yAxis[j + 1] - yAxis[j] == 0.0 then NonFinite
    else
      var r1 := BmsLookup.Lerp(xAxis[i], xAxis[i + 1], x,
                               BmsLookup.Q(table, xSize, ySize, i, j), BmsLookup.Q(table, xSize, ySize, i + 1, j));
      var r2 := BmsLookup.Lerp(xAxis[i], xAxis[i + 1], x,
                               BmsLookup.Q(table, xSize, ySize, i, j + 1), BmsLookup.Q(table, xSize, ySize, i + 1, j + 1));
      Finite(BmsLookup.Lerp(yAxis[j], yAxis[j + 1], y, r1, r2))
  }

  /** Interpolating x first and y second gives the same surface as y first and x second. */
  lemma LerpOrderCommutes(x1: real, x2: real, x: real, y1: real, y2: real, y: real,
                          q11: real, q12: real, q21: real, q22: real)
    requires x1 != x2 && y1 != y2
    ensures BmsLookup.Lerp(y1, y2, y, BmsLookup.Lerp(x1, x2, x, q11, q21), BmsLookup.Lerp(x1, x2, x, q12, q22))
         == BmsLookup.Lerp(x1, x2, x, BmsLookup.Lerp(y1, y2, y, q11, q12), BmsLookup.Lerp(y1, y2, y, q21, q22))
  {
    var wx1, wx2 := (x2 - x) / (x2 - x1), (x - x1) / (x2 - x1);
    var wy1, wy2 := (y2 - y) / (y2 - y1), (y - y1) / (y2 - y1);
    assert wy1 * (wx1 * q11 + wx2 * q21) + wy2 * (wx1 * q12 + wx2 * q22)
        == wx1 * (wy1 * q11 + wy2 * q12) + wx2 * (wy1 * q21 + wy2 * q22);
  }

  /**
   * Where every cell has a width, the interpolation agrees with the live
   * one; only a zero-width cell tells them apart.
   */
  lemma InterpolatedMatchesLive(x: real, y: real, xAxis: seq<real>, yAxis: seq<real>, table: seq<real>,
                                xSize: int, ySize: int)
    requires BmsLookup.LookupShape(xAxis, yAxis, table, xSize, ySize)
    ensures var i, j := BmsLookup.Segment(xAxis, xSize, x), BmsLookup.Segment(yAxis, ySize, y);
            Interpolated(x, y, xAxis, yAxis, table, xSize, ySize)
            == if xAxis[i + 1] - xAxis[i] == 0.0 || yAxis[j + 1] - yAxis[j] == 0.0 then NonFinite
               else Finite(BmsLookup.Bilinear(x, y, xAxis, yAxis, table, xSize, ySize))
  {
    var i, j := BmsLookup.Segment(xAxis, xSize, x), BmsLookup.Segment(yAxis, ySize, y);
    if xAxis[i + 1] - xAxis[i] != 0.0 && yAxis[j + 1] - yAxis[j] != 0.0 {
      LerpOrderCommutes(xAxis[i], xAxis[i + 1], x, yAxis[j], yAxis[j + 1], y,
                        BmsLookup.Q(table, xSize, ySize, i, j), BmsLookup.Q(table, xSize, ySize, i, j + 1),
                        BmsLookup.Q(table, xSize, ySize, i + 1, j), BmsLookup.Q(table, xSize, ySize, i + 1, j + 1));
    }
  }

  /** On strictly increasing axes the interpolation is finite and equals the live one. */
  lemma InterpolatedOnIncreasingAxes(x: real, y: real, xAxis: seq<real>, yAxis: seq<real>, table: seq<real>,
                                     xSize: int, ySize: int)
    requires BmsLookup.LookupShape(xAxis, yAxis, table, xSize, ySize)
    requires BmsLookup.StrictlyIncreasing(xAxis, xSize) && BmsLookup.StrictlyIncreasing(yAxis, ySize)
    ensures Interpolated(x, y, xAxis, yAxis, table, xSize, ySize)
            == Finite(BmsLookup.Bilinear(x, y, xAxis, yAxis, table, xSize, ySize))
  {
    var i, j := BmsLookup.Segment(xAxis, xSize, x), BmsLookup.Segment(yAxis, ySize, y);
    assert xAxis[i] < xAxis[i + 1] && yAxis[j] < yAxis[j + 1];
    InterpolatedMatchesLive(x, y, xAxis, yAxis, table, xSize, ySize);
  }

  /** BMS_BilinearInterpolate, with the same index scan as the live estimator. */
  method BilinearInterpolate(x: real, y: real, xAxis: seq<real>, yAxis: seq<real>, table: seq<real>,
                             xSize: int, ySize: int) returns (r: FloatValue)
    requires BmsLookup.LookupShape(xAxis, yAxis, table, xSize, ySize)
    ensures r == Interpolated(x, y, xAxis, yAxis, table, xSize, ySize)
  {
    var xIdx := BmsLookup.FindSegment(xAxis, xSize, x);
    var yIdx := BmsLookup.FindSegment(yAxis, ySize, y);

    var x1 := xAxis[xIdx];
    var x2 := xAxis[xIdx + 1];
    var y1 := yAxis[yIdx];
    var y2 := yAxis[yIdx + 1];

    BmsLookup.FlatIndexInBounds(xIdx, yIdx, xSize, ySize);
    BmsLookup.FlatIndexInBounds(xIdx, yIdx + 1, xSize, ySize);
    BmsLookup.FlatIndexInBounds(xIdx + 1, yIdx, xSize, ySize);
    BmsLookup.FlatIndexInBounds(xIdx + 1, yIdx + 1, xSize, ySize);
    var q11 := table[xIdx * ySize + yIdx];
    var q12 := table[xIdx * ySize + (yIdx + 1)];
    var q21 := table[(xIdx + 1) * ySize + yIdx];
    var q22 := table[(xIdx + 1) * ySize + (yIdx + 1)];

    assert q11 == BmsLookup.Q(table, xSize, ySize, xIdx, yIdx) && q12 == BmsLookup.Q(table, xSize, ySize, xIdx, yIdx + 1);
    assert q21 == BmsLookup.Q(table, xSize, ySize, xIdx + 1, yIdx) && q22 == BmsLookup.Q(table, xSize, ySize, xIdx + 1, yIdx + 1);

    // A zero width makes the divisions below produce an infinity or a NaN.
    if x2 - x1 == 0.0 || y2 - y1 == 0.0 {
      return NonFinite;
    }

    var r1 := ((x2 - x) / (x2 - x1)) * q11 + ((x - x1) / (x2 - x1)) * q21;
    var r2 := ((x2 - x) / (x2 - x1)) * q12 + ((x - x1) / (x2 - x1)) * q22;
    assert r1 == BmsLookup.Lerp(x1, x2, x, q11, q21) && r2 == BmsLookup.Lerp(x1, x2, x, q12, q22);

    r := Finite(((y2 - y) / (y2 - y1)) * r1 + ((y - y1) / (y2 - y1)) * r2);
    assert r.value == BmsLookup.Lerp(y1, y2, y, r1, r2);
  }

  // ---------------------------------------------------------------------
  // Calibration data. The temperature axis, the SOC axis and the resistance
  // table are those of the live estimator.
  // ---------------------------------------------------------------------

  /** Rounding half up to five decimals. */
  function RoundToFiveDecimals(v: real): real {
    ((v * 100000.0 + 0.5).Floor as real) / 100000.0
  }

  lemma RoundToFiveDecimalsIncreases(u: real, v: real)
    requires u + 0.00001 <= v
    ensures RoundToFiveDecimals(u) < RoundToFiveDecimals(v)
  {
    var a := u * 100000.0 + 0.5;
    var b := v * 100000.0 + 0.5;
    assert a + 1.0 <= b;
    assert a.Floor < b.Floor;
  }

  /** Open-circuit voltage axis: 440 samples about 5.37 mV apart from 12.05844 V. */
  function VLookupAxis(): seq<real> {
    seq(440, i => RoundToFiveDecimals(12.05844 + 0.00537333 * (i as real)))
  }

  /** SOC table, 440 rows by 7 columns: rows 0 to 99 hold their row number in every column, the rest are zero. */
  function SocLookupTable(): seq<real> {
    seq(3080, k => if k / 7 < 100 then (k / 7) as real else 0.0)
  }

  /** The voltage axis strictly increases over all 440 samples. */
  lemma VLookupAxisIncreases()
    ensures BmsLookup.StrictlyIncreasing(VLookupAxis(), 440)
    ensures BmsLookup.StrictlyIncreasing(VLookupAxis(), 100)
  {
    var axis := VLookupAxis();
    forall i, j | 0 <= i < j < 440
      ensures axis[i] < axis[j]
    {
      var u := 12.05844 + 0.00537333 * (i as real);
      var v := 12.05844 + 0.00537333 * (j as real);
      assert v - u == 0.00537333 * ((j - i) as real);
      RoundToFiveDecimalsIncreases(u, v);
    }
  }

  /** SOC (%) read from the open-circuit-voltage table, through its first 100 voltage samples. */
  function OcvSoc(voltage: real, temperature: real): real {
    VLookupAxisIncreases();
    LookupProperties.CalibrationAxesIncrease();
    InterpolatedOnIncreasingAxes(voltage, temperature, VLookupAxis(), BmsLookup.TLookupAxis(), SocLookupTable(), 100, 7);
    Interpolated(voltage, temperature, VLookupAxis(), BmsLookup.TLookupAxis(), SocLookupTable(), 100, 7).value
  }

  /** Internal resistance (ohms) read from the resistance table. */
  function InternalResistance(soc: real, temperature: real): (ohms: real)
    ensures ohms == BmsLookup.InternalResistance(soc, temperature)
  {
    LookupProperties.CalibrationAxesIncrease();
    InterpolatedOnIncreasingAxes(soc, temperature, BmsLookup.SocLookupAxis(), BmsLookup.TLookupAxis(),
                                 BmsLookup.RInternalLookupTable(), 10, 7);
    Interpolated(soc, temperature, BmsLookup.SocLookupAxis(), BmsLookup.TLookupAxis(),
                 BmsLookup.RInternalLookupTable(), 10, 7).value
  }

  /** BMS_GetOCVSOC */
  method GetOcvSoc(voltage: real, temperature: real) returns (soc: real)
    ensures soc == OcvSoc(voltage, temperature)
  {
    var r := BilinearInterpolate(voltage, temperature, VLookupAxis(), BmsLookup.TLookupAxis(), SocLookupTable(), 100, 7);
    soc := r.value;
  }

  /** BMS_GetInternalResistance */
  method GetInternalResistance(soc: real, temperature: real) returns (ohms: real)
    ensures ohms == InternalResistance(soc, temperature)
  {
    var r := BilinearInterpolate(soc, temperature, BmsLookup.SocLookupAxis(), BmsLookup.TLookupAxis(),
                                 BmsLookup.RInternalLookupTable(), 10, 7);
    ohms := r.value;
  }

  // ---------------------------------------------------------------------
  // The estimator as a state machine
  // ---------------------------------------------------------------------

  /**
   * What BMS_Init establishes and every update keeps: the record is well
   * formed, the accumulator is empty between updates, and the timer is zero
   * outside a rest period.
   */
  ghost predicate Invariant(s: Snapshot) {
    && WellFormed(s)
    && s.socErrorAccumulator == 0.0
    && (!s.restPeriodActive ==> s.restPeriodTimer == 0.0)
  }

  /**
   * The state BMS_Init writes. It does not write correction_has_been_applied,
   * which keeps the value it had.
   */
  function Initial(initialSocPercent: real, nominalCapacityAh: real, correctionHasBeenApplied: bool): (s: Snapshot)
    ensures nominalCapacityAh > 0.0 ==> Invariant(s)
    ensures s == BmsAlgo.Initial(initialSocPercent, nominalCapacityAh).(errorCovariance := 1.0,
                                                                        correctionHasBeenApplied := correctionHasBeenApplied)
  {
    assert nominalCapacityAh > 0.0 ==> nominalCapacityAh / nominalCapacityAh == 1.0;
    Snapshot(
      socPercent := initialSocPercent,
      coulombCountUas := InitialCount(initialSocPercent, nominalCapacityAh),
      currentCapacityAh := nominalCapacityAh,
      nominalCapacityAh := nominalCapacityAh,
      kalmanGain := 0.1,
      processNoise := 0.00001,
      measurementNoise := 15.0,
      errorCovariance := 1.0,
      sohPercent := 100.0,
      capacityAdaptationRate := CapacityAdaptationRate,
      socErrorAccumulator := 0.0,
      sohUpdateCount := 0,
      updateCount := 0,
      restPeriodActive := false,
      restPeriodTimer := 0.0,
      correctionHasBeenApplied := correctionHasBeenApplied)
  }

  /** The counter that stands for a SOC (%) at a given usable capacity. */
  function ResyncedCount(socPercent: real, capacityAh: real): int {
    TruncToInt((socPercent / 100.0) * capacityAh * 3600.0 * CoulombScaleFactor)
  }

  /** A rest tick that brings the timer to the rest time; nothing limits how often. */
  predicate Fires(s: Snapshot, current: real, dtSeconds: real) {
    BmsAlgo.IsRest(current) && BmsAlgo.TimerAfter(BmsAlgo.RestOf(s), dtSeconds) >= RestPeriodTime
  }

  // The update is written as the composition of its blocks, in the order
  // the C routine runs them.

  /** Coulomb counting: the tick's charge subtracted from the counter. */
  function DischargeStage(s: Snapshot, current: real, dtSeconds: real): (r: Snapshot)
    ensures WellFormed(s) ==> WellFormed(r)
  {
    s.(coulombCountUas := s.coulombCountUas - CoulombDelta(current, dtSeconds))
  }

  /**
   * The capacity half of the correction: counted, the SOC error scaled by
   * the adaptation rate added to the accumulator, capacity moved by the
   * accumulator and clamped, and SOH recomputed.
   */
  function AccumulateStage(s: Snapshot, socError: real): (r: Snapshot)
    requires s.nominalCapacityAh > 0.0 && IsUint32(s.sohUpdateCount)
    ensures WellFormed(s) ==> WellFormed(r)
  {
    var accumulated := s.socErrorAccumulator + socError * s.capacityAdaptationRate;
    var capacity := ClampCapacity(s.currentCapacityAh + accumulated * s.nominalCapacityAh / 100.0, s.nominalCapacityAh);
    s.(sohUpdateCount := Uint32Succ(s.sohUpdateCount),
       socErrorAccumulator := accumulated,
       currentCapacityAh := capacity,
       sohPercent := Soh(capacity, s.nominalCapacityAh))
  }

  /** The resynchronisation half: the SOC and the counter reset to the OCV reading, the accumulator emptied. */
  function ResyncStage(s: Snapshot, ocvSoc: real): (r: Snapshot)
    ensures WellFormed(s) ==> WellFormed(r)
  {
    s.(socPercent := ocvSoc,
       coulombCountUas := ResyncedCount(ocvSoc, s.currentCapacityAh),
       socErrorAccumulator := 0.0)
  }

  /** The correction applied on a rest tick at or past the rest time. */
  function AdaptStage(s: Snapshot, socError: real, ocvSoc: real): (r: Snapshot)
    requires WellFormed(s)
    ensures WellFormed(r)
  {
    ResyncStage(AccumulateStage(s, socError), ocvSoc)
  }

  /** The rest-period block: the timer advanced, and the correction applied whenever it has reached the rest time. */
  function RestStage(s: Snapshot, current: real, dtSeconds: real, coulombSoc: real, ocvSoc: real): (r: Snapshot)
    requires WellFormed(s) && dtSeconds > 0.0
    ensures WellFormed(r)
  {
    if BmsAlgo.IsRest(current) then
      var timed := s.(restPeriodActive := true, restPeriodTimer := BmsAlgo.TimerAfter(BmsAlgo.RestOf(s), dtSeconds));
      if timed.restPeriodTimer >= RestPeriodTime then AdaptStage(timed, ocvSoc - coulombSoc, ocvSoc) else timed
    else
      s.(restPeriodActive := false, restPeriodTimer := 0.0)
  }

  /** What follows the two SOC readings: the Kalman step, the rest-period block, and the update count. */
  function CorrectStage(s: Snapshot, current: real, dtSeconds: real, coulombSoc: real, ocvSoc: real): (r: Snapshot)
    requires WellFormed(s) && dtSeconds > 0.0
    ensures WellFormed(r)
  {
    var fused := BmsAlgo.FuseStage(s, coulombSoc, ocvSoc);
    var rested := RestStage(fused, current, dtSeconds, coulombSoc, ocvSoc);
    rested.(updateCount := Uint32Succ(rested.updateCount))
  }

  /** The state after an accepted tick, for the SOC read from the open-circuit-voltage table. */
  function StepWithOcv(s: Snapshot, current: real, dtSeconds: real, ocvSoc: real): (r: Snapshot)
    requires WellFormed(s) && dtSeconds > 0.0
    ensures WellFormed(r)
  {
    var counted := DischargeStage(s, current, dtSeconds);
    var coulombSoc := BmsAlgo.ClampedCoulombSoc(counted.coulombCountUas, counted.currentCapacityAh);
    CorrectStage(counted, current, dtSeconds, coulombSoc, ocvSoc)
  }

  /** The state after one call of BMS_Update: ticks with a non-positive dt are ignored. */
  function Step(s: Snapshot, t: Tick): (r: Snapshot)
    requires WellFormed(s)
    ensures WellFormed(r)
  {
    if t.dtSeconds <= 0.0 then s
    else StepWithOcv(s, t.current, t.dtSeconds, OcvSoc(t.voltage, t.temperature))
  }

  /** The state after a sequence of calls of BMS_Update. */
  function Run(s: Snapshot, ticks: seq<Tick>): (r: Snapshot)
    requires WellFormed(s)
    ensures WellFormed(r)
    decreases |ticks|
  {
    if ticks == [] then s else Step(Run(s, ticks[..|ticks| - 1]), ticks[|ticks| - 1])
  }

  /** Every update keeps the invariant. */
  lemma StepKeepsInvariant(s: Snapshot, t: Tick)
    requires Invariant(s)
    ensures Invariant(Step(s, t))
  {
  }

  // ---------------------------------------------------------------------
  // The operations on the state record
  // ---------------------------------------------------------------------

  /**
   * BMS_Init. The conversion of the initial charge to int64_t must be in
   * range, as C leaves an out-of-range conversion undefined.
   */
  method Init(s: State, initialSocPercent: real, nominalCapacityAh: real)
    requires IsInt64(InitialCount(initialSocPercent, nominalCapacityAh))
    modifies s
    ensures s.Snap() == Initial(initialSocPercent, nominalCapacityAh, old(s.correctionHasBeenApplied))
  {
    s.socPercent := initialSocPercent;
    s.coulombCountUas := TruncToInt(initialSocPercent * nominalCapacityAh * 3600.0 * CoulombScaleFactor / 100.0);
    s.currentCapacityAh := nominalCapacityAh;
    s.nominalCapacityAh := nominalCapacityAh;

    s.kalmanGain := 0.1;
    s.processNoise := 0.00001;
    s.measurementNoise := 15.0;
    s.errorCovariance := 1.0;

    s.sohPercent := 100.0;
    s.capacityAdaptationRate := CapacityAdaptationRate;
    s.socErrorAccumulator := 0.0;
    s.sohUpdateCount := 0;

    s.updateCount := 0;
    s.restPeriodActive := false;
    s.restPeriodTimer := 0.0;
  }

  /**
   * The coulomb-counting block of BMS_Update: subtract the tick's charge
   * from the counter and read the counter as a SOC clamped to [0, 100].
   */
  method IntegrateCharge(s: State, current: real, dtSeconds: real) returns (coulombSoc: real)
    requires s.currentCapacityAh > 0.0
    requires IsInt64(CoulombDelta(current, dtSeconds))
    requires IsInt64(s.coulombCountUas - CoulombDelta(current, dtSeconds))
    modifies s
    ensures s.Snap() == DischargeStage(old(s.Snap()), current, dtSeconds)
    ensures coulombSoc == BmsAlgo.ClampedCoulombSoc(s.coulombCountUas, s.currentCapacityAh)
  {
    var currentUas := TruncToInt(current * dtSeconds * CoulombScaleFactor);
    s.coulombCountUas := s.coulombCountUas - currentUas;

    coulombSoc := (s.coulombCountUas as real) / (s.currentCapacityAh * 3600.0 * CoulombScaleFactor) * 100.0;
    if coulombSoc < 0.0 { coulombSoc := 0.0; }
    if coulombSoc > 100.0 { coulombSoc := 100.0; }
  }

  /**
   * The capacity half of the correction: count it, add the scaled SOC error
   * to the accumulator, move the usable capacity by the accumulator, clamp
   * it to its band, and recompute SOH from it.
   */
  method AdaptCapacity(s: State, socError: real)
    requires s.nominalCapacityAh > 0.0 && IsUint32(s.sohUpdateCount)
    modifies s
    ensures s.Snap() == AccumulateStage(old(s.Snap()), socError)
  {
    ghost var expected := AccumulateStage(s.Snap(), socError);
    s.sohUpdateCount := Uint32Succ(s.sohUpdateCount);

    var accumulated := s.socErrorAccumulator + socError * s.capacityAdaptationRate;
    var capacity := s.currentCapacityAh + accumulated * s.nominalCapacityAh / 100.0;
    if capacity < 0.5 * s.nominalCapacityAh {
      capacity := 0.5 * s.nominalCapacityAh;
    }
    if capacity > 1.2 * s.nominalCapacityAh {
      capacity := 1.2 * s.nominalCapacityAh;
    }
    assert capacity == expected.currentCapacityAh;

    s.socErrorAccumulator := accumulated;
    s.currentCapacityAh := capacity;
    s.sohPercent := (capacity / s.nominalCapacityAh) * 100.0;
    assert s.sohPercent == expected.sohPercent;
  }

  /**
   * The resynchronisation half: reset the SOC to the OCV reading, derive the
   * counter from it, and empty the accumulator. The new counter must be in
   * int64_t range.
   */
  method ResyncToOcv(s: State, ocvSoc: real)
    requires IsInt64(ResyncedCount(ocvSoc, s.currentCapacityAh))
    modifies s
    ensures s.Snap() == ResyncStage(old(s.Snap()), ocvSoc)
  {
    s.socPercent := ocvSoc;
    s.coulombCountUas := TruncToInt((s.socPercent / 100.0) * s.currentCapacityAh * 3600.0 * CoulombScaleFactor);
    s.socErrorAccumulator := 0.0;
  }

  /**
   * The rest-period block of BMS_Update: track the rest timer and, on every
   * rest tick at or past the rest time, adapt the usable capacity from the
   * SOC error and resynchronise the SOC and the counter.
   */
  method UpdateRestPeriod(s: State, current: real, dtSeconds: real, ocvSoc: real, coulombSoc: real)
    requires WellFormed(s.Snap()) && dtSeconds > 0.0
    requires IsInt64(RestStage(s.Snap(), current, dtSeconds, coulombSoc, ocvSoc).coulombCountUas)
    modifies s
    ensures s.Snap() == RestStage(old(s.Snap()), current, dtSeconds, coulombSoc, ocvSoc)
  {
    if Abs(current) < RestPeriodThreshold {
      if !s.restPeriodActive {
        s.restPeriodActive := true;
        s.restPeriodTimer := 0.0;
      }
      s.restPeriodTimer := s.restPeriodTimer + dtSeconds;

      if s.restPeriodTimer >= RestPeriodTime {
        var socError := ocvSoc - coulombSoc;
        AdaptCapacity(s, socError);
        ResyncToOcv(s, ocvSoc);
      }
    } else {
      s.restPeriodActive := false;
      s.restPeriodTimer := 0.0;
    }
  }

  /**
   * The part of BMS_Update after the two SOC readings: the Kalman block,
   * the rest-period block, and the update count.
   */
  method ApplyCorrections(s: State, current: real, dtSeconds: real, coulombSoc: real, ocvSoc: real)
    requires WellFormed(s.Snap()) && dtSeconds > 0.0
    requires IsInt64(CorrectStage(s.Snap(), current, dtSeconds, coulombSoc, ocvSoc).coulombCountUas)
    modifies s
    ensures s.Snap() == CorrectStage(old(s.Snap()), current, dtSeconds, coulombSoc, ocvSoc)
  {
    BmsAlgo.FuseEstimates(s, coulombSoc, ocvSoc);
    UpdateRestPeriod(s, current, dtSeconds, ocvSoc, coulombSoc);
    s.updateCount := Uint32Succ(s.updateCount);
  }

  /**
   * BMS_Update. The charge increment, the decremented count and the count
   * the update leaves must be in int64_t range, as C leaves a signed
   * overflow or out-of-range conversion undefined.
   */
  method Update(s: State, voltage: real, current: real, temperature: real, dtSeconds: real)
    requires Invariant(s.Snap())
    requires dtSeconds > 0.0 ==> IsInt64(CoulombDelta(current, dtSeconds))
    requires dtSeconds > 0.0 ==> IsInt64(s.coulombCountUas - CoulombDelta(current, dtSeconds))
    requires IsInt64(Step(s.Snap(), Tick(voltage, current, temperature, dtSeconds)).coulombCountUas)
    modifies s
    ensures s.Snap() == Step(old(s.Snap()), Tick(voltage, current, temperature, dtSeconds))
    ensures Invariant(s.Snap())
  {
    if dtSeconds <= 0.0 {
      return;
    }

    ghost var s0 := s.Snap();
    var coulombSoc := IntegrateCharge(s, current, dtSeconds);
    var ocvSoc := GetOcvSoc(voltage, temperature);
    ApplyCorrections(s, current, dtSeconds, coulombSoc, ocvSoc);
    StepKeepsInvariant(s0, Tick(voltage, current, temperature, dtSeconds));
  }
}
