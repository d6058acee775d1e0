/**
 * What the earlier estimator of bms_algo_backup.c does across calls, set
 * against the live one: the same current selection and, on real cells, the
 * same interpolation; an OCV lookup that reads SOC off the row number; a
 * counter that runs the other way; and a correction that, with no latch,
 * repeats on every rest tick once the rest time is reached and each time
 * resets the SOC to the OCV reading, in or out of [0, 100].
 */
module BmsAlgoBackupProperties {
  import opened CArith
  import opened BmsHeader
  import opened UpdateStages
  import opened BmsLookup
  import opened LookupProperties
  import opened BmsAlgoProperties
  import BmsAlgo
  import BmsAlgoBackup

  // ---------------------------------------------------------------------
  // Interpolation and the OCV lookup
  // ---------------------------------------------------------------------

  /** A cell of zero width gives no finite value, where the live interpolation returns its corner. */
  lemma ZeroWidthCellIsNonFinite(x: real, y: real)
    ensures BmsAlgoBackup.Interpolated(x, y, [1.0, 1.0], [0.0, 10.0], [3.0, 5.0, 7.0, 9.0], 2, 2) == BmsAlgoBackup.NonFinite
    ensures Bilinear(x, y, [1.0, 1.0], [0.0, 10.0], [3.0, 5.0, 7.0, 9.0], 2, 2) == 3.0
  {
    assert Segment([1.0, 1.0], 2, x) == 0;
    ZeroWidthCellYieldsCorner(x, y);
  }

  lemma LerpOfEqualEnds(t1: real, t2: real, t: real, a: real)
    requires t1 != t2
    ensures Lerp(t1, t2, t, a, a) == a
  {
    LerpAsFraction(t1, t2, t, a, a);
  }

  /** Entry (i, j) of the SOC table, for each of its 100 rows, is the row number i. */
  lemma SocTableEntryIsRow(i: int, j: int)
    requires 0 <= i < 100 && 0 <= j < 7
    ensures Q(BmsAlgoBackup.SocLookupTable(), 100, 7, i, j) == i as real
  {
    assert (i * 7 + j) / 7 == i;
  }

  /**
   * On a cell whose two columns agree, the interpolation is the plain
   * interpolation along x of the first column.
   */
  lemma InterpolatedOnEqualColumns(x: real, y: real, xAxis: seq<real>, yAxis: seq<real>, table: seq<real>,
                                   xSize: int, ySize: int)
    requires LookupShape(xAxis, yAxis, table, xSize, ySize)
    requires var i := Segment(xAxis, xSize, x);
             var j := Segment(yAxis, ySize, y);
             && xAxis[i] < xAxis[i + 1] && yAxis[j] < yAxis[j + 1]
             && Q(table, xSize, ySize, i, j) == Q(table, xSize, ySize, i, j + 1)
             && Q(table, xSize, ySize, i + 1, j) == Q(table, xSize, ySize, i + 1, j + 1)
    ensures var i := Segment(xAxis, xSize, x);
            var j := Segment(yAxis, ySize, y);
            BmsAlgoBackup.Interpolated(x, y, xAxis, yAxis, table, xSize, ySize)
            == BmsAlgoBackup.Finite(Lerp(xAxis[i], xAxis[i + 1], x, Q(table, xSize, ySize, i, j), Q(table, xSize, ySize, i + 1, j)))
  {
    var i := Segment(xAxis, xSize, x);
    var j := Segment(yAxis, ySize, y);
    var r := Lerp(xAxis[i], xAxis[i + 1], x, Q(table, xSize, ySize, i, j), Q(table, xSize, ySize, i + 1, j));
    LerpOfEqualEnds(yAxis[j], yAxis[j + 1], y, r);
  }

  lemma VoltageSegmentIsProper(voltage: real)
    ensures var axis := BmsAlgoBackup.VLookupAxis();
            var i := Segment(axis, 100, voltage);
            axis[i] < axis[i + 1]
  {
    BmsAlgoBackup.VLookupAxisIncreases();
  }

  lemma TemperatureSegmentIsProper(temperature: real)
    ensures var axis := TLookupAxis();
            var j := Segment(axis, 7, temperature);
            axis[j] < axis[j + 1]
  {
    CalibrationAxesIncrease();
  }

  /**
   * The OCV lookup reads the SOC off the row number: on the voltage segment
   * the scan selects, it interpolates linearly between that row's index and
   * the next, whatever the temperature.
   */
  lemma OcvSocIsRowLerp(voltage: real, temperature: real)
    ensures var axis := BmsAlgoBackup.VLookupAxis();
            var i := Segment(axis, 100, voltage);
            BmsAlgoBackup.OcvSoc(voltage, temperature) == Lerp(axis[i], axis[i + 1], voltage, i as real, (i + 1) as real)
  {
    var axis := BmsAlgoBackup.VLookupAxis();
    var i := Segment(axis, 100, voltage);
    var j := Segment(TLookupAxis(), 7, temperature);
    VoltageSegmentIsProper(voltage);
    TemperatureSegmentIsProper(temperature);
    SocTableEntryIsRow(i, j);
    SocTableEntryIsRow(i, j + 1);
    SocTableEntryIsRow(i + 1, j);
    SocTableEntryIsRow(i + 1, j + 1);
    InterpolatedOnEqualColumns(voltage, temperature, axis, TLookupAxis(), BmsAlgoBackup.SocLookupTable(), 100, 7);
  }

  /** Temperature has no effect on the OCV lookup. */
  lemma OcvSocIgnoresTemperature(voltage: real, temperature1: real, temperature2: real)
    ensures BmsAlgoBackup.OcvSoc(voltage, temperature1) == BmsAlgoBackup.OcvSoc(voltage, temperature2)
  {
    OcvSocIsRowLerp(voltage, temperature1);
    OcvSocIsRowLerp(voltage, temperature2);
  }

  lemma VoltageSampleSegment(k: int)
    requires 0 <= k < 100
    ensures var axis := BmsAlgoBackup.VLookupAxis();
            var i := Segment(axis, 100, axis[k]);
            && i == (if k == 0 then 0 else k - 1)
            && axis[i] < axis[i + 1]
  {
    BmsAlgoBackup.VLookupAxisIncreases();
    SegmentAtSample(BmsAlgoBackup.VLookupAxis(), 100, k);
  }

  /** At the k-th of the first 100 voltage samples the OCV lookup reads k %. */
  lemma OcvSocAtSample(k: int, temperature: real)
    requires 0 <= k < 100
    ensures BmsAlgoBackup.OcvSoc(BmsAlgoBackup.VLookupAxis()[k], temperature) == k as real
  {
    var axis := BmsAlgoBackup.VLookupAxis();
    VoltageSampleSegment(k);
    OcvSocIsRowLerp(axis[k], temperature);
    var i := Segment(axis, 100, axis[k]);
    LerpAtEnds(axis[i], axis[i + 1], i as real, (i + 1) as real);
  }

  /** Within the first 100 voltage samples the OCV lookup stays within [0, 99] %. */
  lemma OcvSocWithinRows(voltage: real, temperature: real)
    requires BmsAlgoBackup.VLookupAxis()[0] <= voltage <= BmsAlgoBackup.VLookupAxis()[99]
    ensures 0.0 <= BmsAlgoBackup.OcvSoc(voltage, temperature) <= 99.0
  {
    var axis := BmsAlgoBackup.VLookupAxis();
    BmsAlgoBackup.VLookupAxisIncreases();
    SegmentBrackets(axis, 100, voltage);
    OcvSocIsRowLerp(voltage, temperature);
    var i := Segment(axis, 100, voltage);
    LerpBetween(axis[i], axis[i + 1], voltage, i as real, (i + 1) as real);
  }

  /** Below the voltage axis the OCV lookup extrapolates to a negative SOC. */
  lemma OcvSocBelowAxisIsNegative(temperature: real)
    ensures BmsAlgoBackup.OcvSoc(12.0, temperature) < 0.0
  {
    var axis := BmsAlgoBackup.VLookupAxis();
    assert axis[0] == 12.05844;
    assert axis[1] == 12.06381;
    SegmentBelowAxis(axis, 100, 12.0);
    OcvSocIsRowLerp(12.0, temperature);
    LerpAsFraction(axis[0], axis[1], 12.0, 0.0, 1.0);
  }

  /**
   * The last sample of the 440-point voltage axis lies far past the 100
   * samples the lookup is told about, and reads as well over 100 %.
   */
  lemma OcvSocAtTopOfAxisExceedsFull(temperature: real)
    ensures BmsAlgoBackup.OcvSoc(BmsAlgoBackup.VLookupAxis()[439], temperature) > 100.0
  {
    var axis := BmsAlgoBackup.VLookupAxis();
    assert axis[98] == 12.58503;
    assert axis[99] == 12.5904;
    assert axis[439] == 14.41733;
    BmsAlgoBackup.VLookupAxisIncreases();
    SegmentAboveAxis(axis, 100, axis[439]);
    OcvSocIsRowLerp(axis[439], temperature);
    LerpAsFraction(axis[98], axis[99], axis[439], 98.0, 99.0);
  }

  // ---------------------------------------------------------------------
  // One update
  // ---------------------------------------------------------------------

  /**
   * Initialisation differs from the live one in the covariance (1.0 rather
   * than 0.1) and in leaving the correction flag as it was.
   */
  lemma InitialDiffersFromLive(initialSocPercent: real, nominalCapacityAh: real, applied: bool)
    ensures var s := BmsAlgoBackup.Initial(initialSocPercent, nominalCapacityAh, applied);
            var live := BmsAlgo.Initial(initialSocPercent, nominalCapacityAh);
            && s.errorCovariance == 1.0 && live.errorCovariance == 0.1
            && s.correctionHasBeenApplied == applied
            && s.(errorCovariance := live.errorCovariance, correctionHasBeenApplied := false) == live
  {
  }

  /**
   * A tick that is not rest subtracts its charge from the counter, within
   * one unit of current·dt·10^6 and against the current's sign, ends any
   * rest period, and leaves capacity, SOH and the correction count alone.
   */
  lemma StepWithoutRest(s: Snapshot, current: real, dtSeconds: real, ocvSoc: real)
    requires WellFormed(s) && dtSeconds > 0.0 && !BmsAlgo.IsRest(current)
    ensures var r := BmsAlgoBackup.StepWithOcv(s, current, dtSeconds, ocvSoc);
            && r.coulombCountUas == s.coulombCountUas - CoulombDelta(current, dtSeconds)
            && Abs((s.coulombCountUas - r.coulombCountUas) as real - current * dtSeconds * CoulombScaleFactor) < 1.0
            && (current >= 0.0 ==> r.coulombCountUas <= s.coulombCountUas)
            && (current <= 0.0 ==> r.coulombCountUas >= s.coulombCountUas)
            && !r.restPeriodActive && r.restPeriodTimer == 0.0
            && r.currentCapacityAh == s.currentCapacityAh && r.sohPercent == s.sohPercent
            && r.sohUpdateCount == s.sohUpdateCount
  {
    if current >= 0.0 {
      MulNonNegative(current, dtSeconds);
    } else {
      MulNonNegative(-current, dtSeconds);
    }
  }

  /**
   * A rest tick advances the rest timer and, whenever the timer has reached
   * the rest time, counts a correction and resets the SOC to the OCV
   * reading; there is no latch.
   */
  lemma StepAtRest(s: Snapshot, current: real, dtSeconds: real, ocvSoc: real)
    requires WellFormed(s) && dtSeconds > 0.0 && BmsAlgo.IsRest(current)
    ensures var r := BmsAlgoBackup.StepWithOcv(s, current, dtSeconds, ocvSoc);
            var timer := BmsAlgo.TimerAfter(BmsAlgo.RestOf(s), dtSeconds);
            && r.restPeriodActive && r.restPeriodTimer == timer
            && r.sohUpdateCount == (if timer >= RestPeriodTime then Uint32Succ(s.sohUpdateCount) else s.sohUpdateCount)
            && (timer >= RestPeriodTime ==> r.socPercent == ocvSoc)
  {
  }

  /**
   * The capacity after one correction on an empty accumulator: moved by the
   * SOC error times the adaptation rate, as a percentage of nominal, then
   * clamped to [0.5, 1.2]·nominal.
   */
  function CorrectedCapacity(capacityAh: real, nominalAh: real, adaptationRate: real, socError: real): real
    requires nominalAh > 0.0
  {
    ClampCapacity(capacityAh + socError * adaptationRate * nominalAh / 100.0, nominalAh)
  }

  /** A correction moves capacity one tenth as far as the live estimator's adaptation does. */
  lemma CorrectedCapacityIsTenthOfLiveStep(capacityAh: real, nominalAh: real, adaptationRate: real, socError: real)
    requires nominalAh > 0.0
    ensures CorrectedCapacity(capacityAh, nominalAh, adaptationRate, socError)
            == BmsAlgo.AdaptedCapacity(capacityAh, nominalAh, adaptationRate / 10.0, socError)
  {
    assert socError * adaptationRate * nominalAh / 100.0 == socError * nominalAh / 100.0 * ((adaptationRate / 10.0) * 10.0);
  }

  /**
   * The correction itself, on an empty accumulator: capacity moved by the
   * SOC error times the adaptation rate, as a percentage of nominal, then
   * clamped; SOH following capacity; the SOC set to the OCV reading,
   * unclamped; the counter rederived from it; the accumulator emptied again.
   */
  lemma AdaptStageCorrects(s: Snapshot, socError: real, ocvSoc: real)
    requires WellFormed(s) && s.socErrorAccumulator == 0.0
    ensures var r := BmsAlgoBackup.AdaptStage(s, socError, ocvSoc);
            && r.currentCapacityAh == CorrectedCapacity(s.currentCapacityAh, s.nominalCapacityAh, s.capacityAdaptationRate, socError)
            && r.sohPercent == r.currentCapacityAh / s.nominalCapacityAh * 100.0
            && r.socPercent == ocvSoc
            && r.coulombCountUas == BmsAlgoBackup.ResyncedCount(ocvSoc, r.currentCapacityAh)
            && r.socErrorAccumulator == 0.0
            && r.sohUpdateCount == Uint32Succ(s.sohUpdateCount)
  {
    assert s.socErrorAccumulator + socError * s.capacityAdaptationRate == socError * s.capacityAdaptationRate;
  }

  /**
   * On a rest tick that reaches the rest time, the correction is applied
   * for the tick's SOC error: the OCV SOC minus the coulomb-counted SOC.
   */
  lemma StepCorrects(s: Snapshot, current: real, dtSeconds: real, ocvSoc: real)
    requires WellFormed(s) && s.socErrorAccumulator == 0.0
    requires dtSeconds > 0.0 && BmsAlgoBackup.Fires(s, current, dtSeconds)
    ensures var r := BmsAlgoBackup.StepWithOcv(s, current, dtSeconds, ocvSoc);
            var coulombSoc := BmsAlgo.ClampedCoulombSoc(s.coulombCountUas - CoulombDelta(current, dtSeconds), s.currentCapacityAh);
            var socError := ocvSoc - coulombSoc;
            && r.currentCapacityAh == CorrectedCapacity(s.currentCapacityAh, s.nominalCapacityAh, s.capacityAdaptationRate, socError)
            && r.sohPercent == r.currentCapacityAh / s.nominalCapacityAh * 100.0
            && r.socPercent == ocvSoc
            && r.coulombCountUas == BmsAlgoBackup.ResyncedCount(ocvSoc, r.currentCapacityAh)
            && r.socErrorAccumulator == 0.0
  {
    var counted := BmsAlgoBackup.DischargeStage(s, current, dtSeconds);
    var coulombSoc := BmsAlgo.ClampedCoulombSoc(counted.coulombCountUas, counted.currentCapacityAh);
    var fused := BmsAlgo.FuseStage(counted, coulombSoc, ocvSoc);
    var timed := fused.(restPeriodActive := true, restPeriodTimer := BmsAlgo.TimerAfter(BmsAlgo.RestOf(fused), dtSeconds));
    assert BmsAlgo.RestOf(fused) == BmsAlgo.RestOf(s);
    assert WellFormed(timed) && timed.socErrorAccumulator == 0.0;
    AdaptStageCorrects(timed, ocvSoc - coulombSoc, ocvSoc);
    var adapted := BmsAlgoBackup.AdaptStage(timed, ocvSoc - coulombSoc, ocvSoc);
    assert BmsAlgoBackup.RestStage(fused, current, dtSeconds, coulombSoc, ocvSoc) == adapted;
    assert BmsAlgoBackup.StepWithOcv(s, current, dtSeconds, ocvSoc) == adapted.(updateCount := Uint32Succ(adapted.updateCount));
    assert timed.currentCapacityAh == s.currentCapacityAh && timed.nominalCapacityAh == s.nominalCapacityAh;
    assert timed.capacityAdaptationRate == s.capacityAdaptationRate;
  }

  /**
   * The resynchronised counter reads back as the SOC it was derived from,
   * to within the SOC worth of one count.
   */
  lemma ResyncedCountReadsBack(socPercent: real, capacityAh: real)
    requires capacityAh > 0.0
    ensures Abs(CoulombSoc(BmsAlgoBackup.ResyncedCount(socPercent, capacityAh), capacityAh) - socPercent)
            < 100.0 / (capacityAh * 3600.0 * CoulombScaleFactor)
  {
    var d := capacityAh * 3600.0 * CoulombScaleFactor;
    var x := (socPercent / 100.0) * capacityAh * 3600.0 * CoulombScaleFactor;
    var n := BmsAlgoBackup.ResyncedCount(socPercent, capacityAh);
    assert x == socPercent / 100.0 * d;
    assert CoulombSoc(n, capacityAh) - socPercent == ((n as real) - x) * (100.0 / d);
    var e := (n as real) - x;
    assert Abs(e) < 1.0;
    if e >= 0.0 {
      assert e * (100.0 / d) < 100.0 / d;
    } else {
      assert -e * (100.0 / d) < 100.0 / d;
    }
  }

  /** A correction fed an OCV reading outside [0, 100] leaves the SOC outside [0, 100]. */
  lemma CorrectionCanLeaveSocOutOfRange(s: Snapshot, current: real, dtSeconds: real)
    requires BmsAlgoBackup.Invariant(s) && dtSeconds > 0.0 && BmsAlgoBackup.Fires(s, current, dtSeconds)
    ensures BmsAlgoBackup.StepWithOcv(s, current, dtSeconds, BmsAlgoBackup.OcvSoc(12.0, 296.0)).socPercent < 0.0
  {
    OcvSocBelowAxisIsNegative(296.0);
    StepCorrects(s, current, dtSeconds, BmsAlgoBackup.OcvSoc(12.0, 296.0));
  }

  // ---------------------------------------------------------------------
  // Sequences of updates
  // ---------------------------------------------------------------------

  lemma RunUnfolds(s: Snapshot, ticks: seq<Tick>)
    requires WellFormed(s) && ticks != []
    ensures BmsAlgoBackup.Run(s, ticks) == BmsAlgoBackup.Step(BmsAlgoBackup.Run(s, ticks[..|ticks| - 1]), ticks[|ticks| - 1])
  {
  }

  /** Every state reachable from one satisfying the invariant satisfies it. */
  lemma {:induction false} RunKeepsInvariant(s: Snapshot, ticks: seq<Tick>)
    requires BmsAlgoBackup.Invariant(s)
    ensures BmsAlgoBackup.Invariant(BmsAlgoBackup.Run(s, ticks))
    decreases |ticks|
  {
    if ticks != [] {
      var prefix := ticks[..|ticks| - 1];
      RunKeepsInvariant(s, prefix);
      RunUnfolds(s, ticks);
      BmsAlgoBackup.StepKeepsInvariant(BmsAlgoBackup.Run(s, prefix), ticks[|ticks| - 1]);
    }
  }

  lemma StepWithoutRestOnTick(s: Snapshot, t: Tick)
    requires WellFormed(s) && !BmsAlgo.IsRest(t.current)
    ensures var r := BmsAlgoBackup.Step(s, t);
            && r.coulombCountUas == s.coulombCountUas - (if t.dtSeconds > 0.0 then CoulombDelta(t.current, t.dtSeconds) else 0)
            && r.currentCapacityAh == s.currentCapacityAh && r.sohPercent == s.sohPercent
  {
    if t.dtSeconds > 0.0 {
      StepWithoutRest(s, t.current, t.dtSeconds, BmsAlgoBackup.OcvSoc(t.voltage, t.temperature));
    }
  }

  /** Without a rest tick the counter loses the charge of the accepted ticks, and capacity and SOH never change. */
  lemma {:induction false} RunWithoutRestSubtractsCharge(s: Snapshot, ticks: seq<Tick>)
    requires WellFormed(s)
    requires forall k :: 0 <= k < |ticks| ==> !BmsAlgo.IsRest(ticks[k].current)
    ensures var r := BmsAlgoBackup.Run(s, ticks);
            && r.coulombCountUas == s.coulombCountUas - ChargeSum(ticks)
            && r.currentCapacityAh == s.currentCapacityAh && r.sohPercent == s.sohPercent
    decreases |ticks|
  {
    if ticks != [] {
      var prefix := ticks[..|ticks| - 1];
      var t := ticks[|ticks| - 1];
      RunWithoutRestSubtractsCharge(s, prefix);
      RunUnfolds(s, ticks);
      StepWithoutRestOnTick(BmsAlgoBackup.Run(s, prefix), t);
    }
  }

  /** How many prefixes of a sequence of ticks (of length 1 or more) last at least the rest time. */
  function TimesReached(ticks: seq<Tick>): nat
    decreases |ticks|
  {
    if ticks == [] then 0
    else TimesReached(ticks[..|ticks| - 1]) + (if SumDt(ticks) >= RestPeriodTime then 1 else 0)
  }

  lemma StepAtRestOnTick(s: Snapshot, t: Tick)
    requires WellFormed(s) && t.dtSeconds > 0.0 && BmsAlgo.IsRest(t.current)
    ensures var r := BmsAlgoBackup.Step(s, t);
            var timer := BmsAlgo.TimerAfter(BmsAlgo.RestOf(s), t.dtSeconds);
            && r.restPeriodActive && r.restPeriodTimer == timer
            && r.sohUpdateCount == (if timer >= RestPeriodTime then Uint32Succ(s.sohUpdateCount) else s.sohUpdateCount)
            && (timer >= RestPeriodTime ==> r.socPercent == BmsAlgoBackup.OcvSoc(t.voltage, t.temperature))
  {
    StepAtRest(s, t.current, t.dtSeconds, BmsAlgoBackup.OcvSoc(t.voltage, t.temperature));
  }

  lemma TimesReachedUnfolds(a: int, ticks: seq<Tick>)
    requires IsUint32(a) && ticks != []
    ensures var k := Uint32Add(a, TimesReached(ticks[..|ticks| - 1]));
            Uint32Add(a, TimesReached(ticks)) == (if SumDt(ticks) >= RestPeriodTime then Uint32Succ(k) else k)
  {
    var n := TimesReached(ticks[..|ticks| - 1]);
    if SumDt(ticks) >= RestPeriodTime {
      assert TimesReached(ticks) == n + 1;
    } else {
      assert TimesReached(ticks) == n;
    }
  }

  /**
   * From outside a rest period, over rest ticks of positive duration, the
   * timer is the time elapsed, and a correction is counted on every tick
   * that ends at or past the rest time, not only on the first.
   */
  lemma {:induction false} RunAtRestFromIdle(s: Snapshot, ticks: seq<Tick>)
    requires WellFormed(s) && !s.restPeriodActive
    requires AllRest(ticks) && AllAccepted(ticks) && |ticks| >= 1
    ensures var r := BmsAlgoBackup.Run(s, ticks);
            && r.restPeriodActive && r.restPeriodTimer == SumDt(ticks)
            && r.sohUpdateCount == Uint32Add(s.sohUpdateCount, TimesReached(ticks))
    decreases |ticks|
  {
    var prefix := ticks[..|ticks| - 1];
    var t := ticks[|ticks| - 1];
    assert BmsAlgo.IsRest(t.current) && t.dtSeconds > 0.0;
    if |prefix| >= 1 {
      assert AllRest(prefix) && AllAccepted(prefix) by {
        forall k | 0 <= k < |prefix| ensures BmsAlgo.IsRest(prefix[k].current) && prefix[k].dtSeconds > 0.0 {
          assert prefix[k] == ticks[k];
        }
      }
      RunAtRestFromIdle(s, prefix);
    } else {
      assert prefix == [];
    }
    RunUnfolds(s, ticks);
    StepAtRestOnTick(BmsAlgoBackup.Run(s, prefix), t);
    TimesReachedUnfolds(s.sohUpdateCount, ticks);
  }

  /** With one-second ticks, every tick from the fifth on reaches the rest time. */
  lemma {:induction false} TimesReachedOfOneSecondTicks(ticks: seq<Tick>, t: Tick)
    requires Repeats(ticks, t) && t.dtSeconds == 1.0
    ensures TimesReached(ticks) == if |ticks| >= 5 then |ticks| - 4 else 0
    decreases |ticks|
  {
    if ticks != [] {
      var prefix := ticks[..|ticks| - 1];
      assert Repeats(prefix, t) by {
        forall k | 0 <= k < |prefix| ensures prefix[k] == t {
          assert prefix[k] == ticks[k];
        }
      }
      TimesReachedOfOneSecondTicks(prefix, t);
      RepeatedSums(ticks, t);
    }
  }

  /**
   * Ten one-second ticks at 50 mA after initialisation: the rest time is
   * reached during the fifth tick and every tick from then on counts a
   * correction, six in all, where the live estimator counts one; and the
   * SOC ends at the OCV reading.
   */
  lemma TenSecondsAtRestAdaptSixTimes(initialSocPercent: real, nominalCapacityAh: real, applied: bool,
                                      voltage: real, temperature: real, ticks: seq<Tick>)
    requires nominalCapacityAh > 0.0
    requires |ticks| == 10 && Repeats(ticks, Tick(voltage, 0.05, temperature, 1.0))
    ensures var r := BmsAlgoBackup.Run(BmsAlgoBackup.Initial(initialSocPercent, nominalCapacityAh, applied), ticks);
            && r.sohUpdateCount == 6
            && r.socPercent == BmsAlgoBackup.OcvSoc(voltage, temperature)
  {
    var s := BmsAlgoBackup.Initial(initialSocPercent, nominalCapacityAh, applied);
    var t := Tick(voltage, 0.05, temperature, 1.0);
    assert AllRest(ticks) && AllAccepted(ticks);
    RunAtRestFromIdle(s, ticks);
    TimesReachedOfOneSecondTicks(ticks, t);
    Uint32AddWraps(0, 6);
    var prefix := ticks[..9];
    assert AllRest(prefix) && AllAccepted(prefix) && Repeats(prefix, t);
    RunAtRestFromIdle(s, prefix);
    RepeatedSums(prefix, t);
    RunUnfolds(s, ticks);
    assert ticks[..|ticks| - 1] == prefix;
    StepAtRestOnTick(BmsAlgoBackup.Run(s, prefix), ticks[9]);
  }

  /**
   * An hour at 5 A in 0.1 s ticks from 50 % of a 100 Ah battery: the
   * counter loses 1.8·10^10 µA·s, so the coulomb-counted SOC falls from
   * 50 % to 45 %, where the live estimator's rises to 55 %.
   */
  lemma HourAtFiveAmpsRemovesFivePercent(applied: bool, voltage: real, temperature: real, ticks: seq<Tick>)
    requires |ticks| == 36000 && Repeats(ticks, Tick(voltage, 5.0, temperature, 0.1))
    ensures var s := BmsAlgoBackup.Initial(50.0, 100.0, applied);
            var r := BmsAlgoBackup.Run(s, ticks);
            && r.coulombCountUas == s.coulombCountUas - 18_000_000_000
            && CoulombSoc(s.coulombCountUas, 100.0) == 50.0
            && CoulombSoc(r.coulombCountUas, r.currentCapacityAh) == 45.0
  {
    var s := BmsAlgoBackup.Initial(50.0, 100.0, applied);
    var t := Tick(voltage, 5.0, temperature, 0.1);
    assert CoulombDelta(5.0, 0.1) == 500_000;
    RepeatedSums(ticks, t);
    RunWithoutRestSubtractsCharge(s, ticks);
    assert s.coulombCountUas == 180_000_000_000;
  }
}
