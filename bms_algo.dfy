/**
 * The estimator of bms_algo.c: current-sensor selection, state
 * initialisation, and the per-tick update that integrates charge, fuses the
 * coulomb-counted SOC with the open-circuit-voltage SOC through a scalar
 * Kalman filter, and adapts the usable capacity once per rest period.
 *
 * The update is a method on the state record, proved equal to the pure
 * function `Step`; the properties of the estimator are proved about `Step`
 * and about `Run`, its fold over a sequence of ticks.
 */
module BmsAlgo {
  import opened CArith
  import opened BmsHeader
  import opened BmsLookup
  import opened UpdateStages

  // ---------------------------------------------------------------------
  // Current sensing
  // ---------------------------------------------------------------------

  /** Channel 1 (26.7 mV/A about 2.5 V) reading in amps. */
  function Ch1Amps(adcVolts: real): real {
    (adcVolts - 2.5) / 0.0267
  }

  /** Channel 2 (4 mV/A about 2.5 V) reading in amps. */
  function Ch2Amps(adcVolts: real): real {
    (adcVolts - 2.5) / 0.004
  }

  /**
   * BMS_GetCurrent. Channel 1 is used exactly when its reading is within
   * ±70 A, i.e. when its voltage lies within 1.869 V of the 2.5 V offset;
   * otherwise channel 2 is used.
   */
  function GetCurrent(adcCh1Volts: real, adcCh2Volts: real): (amps: real)
    ensures 0.631 <= adcCh1Volts <= 4.369 ==> amps == (adcCh1Volts - 2.5) / 0.0267
    ensures !(0.631 <= adcCh1Volts <= 4.369) ==> amps == (adcCh2Volts - 2.5) / 0.004
    ensures Abs(amps) <= MaxCurrentCh1 || amps == (adcCh2Volts - 2.5) / 0.004
  {
    var currentCh1 := Ch1Amps(adcCh1Volts);
    var currentCh2 := Ch2Amps(adcCh2Volts);
    if Abs(currentCh1) <= MaxCurrentCh1 then currentCh1 else currentCh2
  }

  // ---------------------------------------------------------------------
  // Rest-period monitor
  // ---------------------------------------------------------------------

  /** The three fields that track a rest period. */
  datatype RestMonitor = RestMonitor(active: bool, timer: real, applied: bool)

  function RestOf(s: Snapshot): RestMonitor {
    RestMonitor(s.restPeriodActive, s.restPeriodTimer, s.correctionHasBeenApplied)
  }

  /** A current of magnitude below the threshold counts as rest. */
  predicate IsRest(current: real) {
    Abs(current) < RestPeriodThreshold
  }

  /** The rest timer after a rest tick: it restarts from zero when a rest period begins. */
  function TimerAfter(m: RestMonitor, dtSeconds: real): real {
    (if m.active then m.timer else 0.0) + dtSeconds
  }

  /** A rest tick that brings the timer to the rest time, with no correction yet in this period. */
  predicate Fires(m: RestMonitor, current: real, dtSeconds: real) {
    IsRest(current) && TimerAfter(m, dtSeconds) >= RestPeriodTime && !m.applied
  }

  /** The monitor after an accepted tick. */
  function RestStep(m: RestMonitor, current: real, dtSeconds: real): RestMonitor {
    if IsRest(current) then RestMonitor(true, TimerAfter(m, dtSeconds), m.applied || Fires(m, current, dtSeconds))
    else RestMonitor(false, 0.0, false)
  }

  /** The monitor after any tick: ticks with a non-positive dt are ignored. */
  function RestTick(m: RestMonitor, t: Tick): RestMonitor {
    if t.dtSeconds <= 0.0 then m else RestStep(m, t.current, t.dtSeconds)
  }

  /** The tick adapts capacity. */
  predicate FiresOn(m: RestMonitor, t: Tick) {
    t.dtSeconds > 0.0 && Fires(m, t.current, t.dtSeconds)
  }

  /** Outside a rest period there is no timer and no correction. */
  predicate RestConsistent(m: RestMonitor) {
    !m.active ==> !m.applied && m.timer == 0.0
  }

  // ---------------------------------------------------------------------
  // The estimator as a state machine
  // ---------------------------------------------------------------------

  /** What BMS_Init establishes, and every update keeps. */
  ghost predicate Invariant(s: Snapshot) {
    WellFormed(s) && RestConsistent(RestOf(s))
  }

  /** The state BMS_Init writes; it satisfies the invariant whenever the nominal capacity is positive. */
  function Initial(initialSocPercent: real, nominalCapacityAh: real): (s: Snapshot)
    ensures nominalCapacityAh > 0.0 ==> Invariant(s)
  {
    assert nominalCapacityAh > 0.0 ==> nominalCapacityAh / nominalCapacityAh == 1.0;
    Snapshot(
      socPercent := initialSocPercent,
      coulombCountUas := InitialCount(initialSocPercent, nominalCapacityAh),
      currentCapacityAh := nominalCapacityAh,
      nominalCapacityAh := nominalCapacityAh,
      kalmanGain := 0.1,
      processNoise := 0.00001,
      measurementNoise := 15.0,
      errorCovariance := 0.1,
      sohPercent := 100.0,
      capacityAdaptationRate := CapacityAdaptationRate,
      socErrorAccumulator := 0.0,
      sohUpdateCount := 0,
      updateCount := 0,
      restPeriodActive := false,
      restPeriodTimer := 0.0,
      correctionHasBeenApplied := false)
  }

  /** The coulomb-counted SOC clamped to [0, 100] for a count. */
  function ClampedCoulombSoc(countUas: int, capacityAh: real): (soc: real)
    requires capacityAh > 0.0
    ensures 0.0 <= soc <= 100.0
  {
    Clamp(CoulombSoc(countUas, capacityAh), 0.0, 100.0)
  }

  /** The usable capacity after one adaptation for a given SOC error. */
  function AdaptedCapacity(capacityAh: real, nominalAh: real, adaptationRate: real, socError: real): real
    requires nominalAh > 0.0
  {
    ClampCapacity(capacityAh + socError * nominalAh / 100.0 * (adaptationRate * 10.0), nominalAh)
  }

  // The update is written as the composition of its blocks, in the order
  // the C routine runs them.

  /** Coulomb counting: the tick's charge added to the counter. */
  function ChargeStage(s: Snapshot, current: real, dtSeconds: real): (r: Snapshot)
    ensures WellFormed(s) ==> WellFormed(r)
  {
    s.(coulombCountUas := s.coulombCountUas + CoulombDelta(current, dtSeconds))
  }

  /** The Kalman step: gain, fused SOC clamped to [0, 100], and posterior covariance. */
  function FuseStage(s: Snapshot, coulombSoc: real, ocvSoc: real): (r: Snapshot)
    requires WellFormed(s)
    ensures WellFormed(r)
  {
    var predictedP := s.errorCovariance + s.processNoise;
    var gain := KalmanGain(predictedP, s.measurementNoise);
    s.(kalmanGain := gain,
       socPercent := Clamp(Blend(coulombSoc, ocvSoc, gain), 0.0, 100.0),
       errorCovariance := PosteriorCovariance(gain, predictedP))
  }

  /** The once-per-rest-period correction: counted, capacity adapted, SOH recomputed. */
  function AdaptStage(s: Snapshot, socError: real): (r: Snapshot)
    requires WellFormed(s)
    ensures WellFormed(r)
  {
    var capacity := AdaptedCapacity(s.currentCapacityAh, s.nominalCapacityAh, s.capacityAdaptationRate, socError);
    s.(sohUpdateCount := Uint32Succ(s.sohUpdateCount),
       currentCapacityAh := capacity,
       sohPercent := Soh(capacity, s.nominalCapacityAh))
  }

  /** The rest-period block: the monitor advanced, and the correction applied when it fires. */
  function RestStage(s: Snapshot, current: real, dtSeconds: real, socError: real): (r: Snapshot)
    requires WellFormed(s) && dtSeconds > 0.0
    ensures WellFormed(r)
  {
    var m := RestOf(s);
    var rest := RestStep(m, current, dtSeconds);
    var adapted := if Fires(m, current, dtSeconds) then AdaptStage(s, socError) else s;
    adapted.(restPeriodActive := rest.active, restPeriodTimer := rest.timer, correctionHasBeenApplied := rest.applied)
  }

  /** What follows the two SOC readings: the Kalman step, the rest-period block, and the update count. */
  function CorrectStage(s: Snapshot, current: real, dtSeconds: real, coulombSoc: real, ocvSoc: real): (r: Snapshot)
    requires WellFormed(s) && dtSeconds > 0.0
    ensures WellFormed(r)
  {
    var fused := FuseStage(s, coulombSoc, ocvSoc);
    var rested := RestStage(fused, current, dtSeconds, ocvSoc - coulombSoc);
    rested.(updateCount := Uint32Succ(rested.updateCount))
  }

  /**
   * The state after an accepted tick (dt > 0) of the given current and
   * duration, for the SOC read from the open-circuit-voltage table.
   */
  function StepWithOcv(s: Snapshot, current: real, dtSeconds: real, ocvSoc: real): (r: Snapshot)
    requires WellFormed(s) && dtSeconds > 0.0
    ensures WellFormed(r)
  {
    var counted := ChargeStage(s, current, dtSeconds);
    var coulombSoc := ClampedCoulombSoc(counted.coulombCountUas, counted.currentCapacityAh);
    CorrectStage(counted, current, dtSeconds, coulombSoc, ocvSoc)
  }

  /** The state after one call of BMS_Update: ticks with a non-positive dt are ignored. */
  function Step(s: Snapshot, t: Tick): (r: Snapshot)
    requires WellFormed(s)
    ensures WellFormed(r)
  {
    if t.dtSeconds <= 0.0 then s
    else StepWithOcv(s, t.current, t.dtSeconds, OcvSoc(t.voltage, t.temperature))
  }

  /** The state after a sequence of calls of BMS_Update. */
  function Run(s: Snapshot, ticks: seq<Tick>): (r: Snapshot)
    requires WellFormed(s)
    ensures WellFormed(r)
    decreases |ticks|
  {
    if ticks == [] then s else Step(Run(s, ticks[..|ticks| - 1]), ticks[|ticks| - 1])
  }

  /** Every update keeps the rest monitor consistent, so it keeps the invariant. */
  lemma StepKeepsRestConsistent(s: Snapshot, t: Tick)
    requires Invariant(s)
    ensures Invariant(Step(s, t))
  {
  }

  // ---------------------------------------------------------------------
  // The operations on the state record
  // ---------------------------------------------------------------------

  /**
   * BMS_Init. The conversion of the initial charge to int64_t must be in
   * range, as C leaves an out-of-range conversion undefined.
   */
  method Init(s: State, initialSocPercent: real, nominalCapacityAh: real)
    requires IsInt64(InitialCount(initialSocPercent, nominalCapacityAh))
    modifies s
    ensures s.Snap() == Initial(initialSocPercent, nominalCapacityAh)
  {
    s.socPercent := initialSocPercent;
    s.coulombCountUas := TruncToInt(initialSocPercent * nominalCapacityAh * 3600.0 * CoulombScaleFactor / 100.0);
    s.currentCapacityAh := nominalCapacityAh;
    s.nominalCapacityAh := nominalCapacityAh;

    s.kalmanGain := 0.1;
    s.processNoise := 0.00001;
    s.measurementNoise := 15.0;
    s.errorCovariance := 0.1;

    s.sohPercent := 100.0;
    s.capacityAdaptationRate := CapacityAdaptationRate;
    s.socErrorAccumulator := 0.0;
    s.sohUpdateCount := 0;

    s.updateCount := 0;
    s.restPeriodActive := false;
    s.restPeriodTimer := 0.0;
    s.correctionHasBeenApplied := false;
  }

  /**
   * The coulomb-counting block of BMS_Update: add the tick's charge to the
   * counter and read the counter as a SOC clamped to [0, 100].
   */
  method IntegrateCharge(s: State, current: real, dtSeconds: real) returns (coulombSoc: real)
    requires s.currentCapacityAh > 0.0
    requires IsInt64(CoulombDelta(current, dtSeconds))
    requires IsInt64(s.coulombCountUas + CoulombDelta(current, dtSeconds))
    modifies s
    ensures s.Snap() == ChargeStage(old(s.Snap()), current, dtSeconds)
    ensures coulombSoc == ClampedCoulombSoc(s.coulombCountUas, s.currentCapacityAh)
  {
    var currentUas := TruncToInt(current * dtSeconds * CoulombScaleFactor);
    s.coulombCountUas := s.coulombCountUas + currentUas;

    coulombSoc := (s.coulombCountUas as real) / (s.currentCapacityAh * 3600.0 * CoulombScaleFactor) * 100.0;
    if coulombSoc < 0.0 { coulombSoc := 0.0; }
    if coulombSoc > 100.0 { coulombSoc := 100.0; }
  }

  /**
   * The Kalman block of BMS_Update: predict the covariance, compute the
   * gain, move the coulomb-counted SOC toward the OCV SOC by the gain,
   * shrink the covariance, and clamp the SOC to [0, 100].
   */
  method FuseEstimates(s: State, coulombSoc: real, ocvSoc: real)
    requires WellFormed(s.Snap())
    modifies s
    ensures s.Snap() == FuseStage(old(s.Snap()), coulombSoc, ocvSoc)
  {
    var predictedSoc := coulombSoc;
    var predictedP := s.errorCovariance + s.processNoise;
    s.kalmanGain := predictedP / (predictedP + s.measurementNoise);
    assert s.kalmanGain == KalmanGain(predictedP, s.measurementNoise);
    s.socPercent := predictedSoc + s.kalmanGain * (ocvSoc - predictedSoc);
    ghost var blended := Blend(coulombSoc, ocvSoc, s.kalmanGain);
    assert s.socPercent == blended;
    s.errorCovariance := (1.0 - s.kalmanGain) * predictedP;

    if s.socPercent < 0.0 { s.socPercent := 0.0; }
    if s.socPercent > 100.0 { s.socPercent := 100.0; }
    assert s.socPercent == Clamp(blended, 0.0, 100.0);
  }

  /**
   * The correction applied once per rest period: count it, move the usable
   * capacity by the SOC error scaled by the adaptation rate, clamp it to its
   * band, and recompute SOH from it.
   */
  method AdaptCapacity(s: State, socError: real)
    requires WellFormed(s.Snap())
    modifies s
    ensures s.Snap() == AdaptStage(old(s.Snap()), socError)
  {
    ghost var capacity := AdaptedCapacity(s.currentCapacityAh, s.nominalCapacityAh, s.capacityAdaptationRate, socError);
    s.sohUpdateCount := Uint32Succ(s.sohUpdateCount);

    s.currentCapacityAh := s.currentCapacityAh + socError * s.nominalCapacityAh / 100.0 * (s.capacityAdaptationRate * 10.0);
    if s.currentCapacityAh < 0.5 * s.nominalCapacityAh {
      s.currentCapacityAh := 0.5 * s.nominalCapacityAh;
    }
    if s.currentCapacityAh > 1.2 * s.nominalCapacityAh {
      s.currentCapacityAh := 1.2 * s.nominalCapacityAh;
    }
    assert s.currentCapacityAh == capacity;

    s.sohPercent := (s.currentCapacityAh / s.nominalCapacityAh) * 100.0;
  }

  /**
   * The rest-period block of BMS_Update: track the rest timer and, on the
   * tick that reaches the rest time, adapt the usable capacity from the SOC
   * error, once per rest period.
   */
  method UpdateRestPeriod(s: State, current: real, dtSeconds: real, ocvSoc: real, coulombSoc: real)
    requires WellFormed(s.Snap()) && dtSeconds > 0.0
    modifies s
    ensures s.Snap() == RestStage(old(s.Snap()), current, dtSeconds, ocvSoc - coulombSoc)
  {
    if Abs(current) < RestPeriodThreshold {
      if !s.restPeriodActive {
        s.restPeriodActive := true;
        s.restPeriodTimer := 0.0;
      }
      s.restPeriodTimer := s.restPeriodTimer + dtSeconds;

      if s.restPeriodTimer >= RestPeriodTime && !s.correctionHasBeenApplied {
        var socError := ocvSoc - coulombSoc;
        AdaptCapacity(s, socError);
        s.correctionHasBeenApplied := true;
      }
    } else {
      s.restPeriodActive := false;
      s.restPeriodTimer := 0.0;
      s.correctionHasBeenApplied := false;
    }
  }

  /**
   * The part of BMS_Update after the two SOC readings: the Kalman block,
   * the rest-period block, and the update count.
   */
  method ApplyCorrections(s: State, current: real, dtSeconds: real, coulombSoc: real, ocvSoc: real)
    requires WellFormed(s.Snap()) && dtSeconds > 0.0
    modifies s
    ensures s.Snap() == CorrectStage(old(s.Snap()), current, dtSeconds, coulombSoc, ocvSoc)
  {
    FuseEstimates(s, coulombSoc, ocvSoc);
    UpdateRestPeriod(s, current, dtSeconds, ocvSoc, coulombSoc);
    s.updateCount := Uint32Succ(s.updateCount);
  }

  /**
   * BMS_Update. The charge increment and the new count must be in int64_t
   * range, as C leaves a signed overflow or out-of-range conversion
   * undefined.
   */
  method Update(s: State, voltage: real, current: real, temperature: real, dtSeconds: real)
    requires Invariant(s.Snap())
    requires dtSeconds > 0.0 ==> IsInt64(CoulombDelta(current, dtSeconds))
    requires dtSeconds > 0.0 ==> IsInt64(s.coulombCountUas + CoulombDelta(current, dtSeconds))
    modifies s
    ensures s.Snap() == Step(old(s.Snap()), Tick(voltage, current, temperature, dtSeconds))
    ensures Invariant(s.Snap())
  {
    if dtSeconds <= 0.0 {
      return;
    }

    ghost var s0 := s.Snap();
    var coulombSoc := IntegrateCharge(s, current, dtSeconds);
    var ocvSoc := GetOcvSoc(voltage, temperature);
    ApplyCorrections(s, current, dtSeconds, coulombSoc, ocvSoc);
    StepKeepsRestConsistent(s0, Tick(voltage, current, temperature, dtSeconds));
  }
}
