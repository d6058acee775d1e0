/**
 * The estimator state record and the tuning constants shared by both
 * implementations of the estimator (bms_algo.h).
 *
 * Floating-point fields are exact reals. The extended-filter and
 * equivalent-circuit fields of the record, and the execution-time field,
 * are never read by either update path and are not part of the model.
 */
module BmsHeader {
  import opened CArith

  /** Channel 1 of the current sensor is trusted up to this many amps. */
  const MaxCurrentCh1: real := 70.0
  /** Fixed-point scale of the charge counter: units of 10^-6 A·s. */
  const CoulombScaleFactor: real := 1000000.0
  /** Currents strictly below this magnitude (amps) count as rest. */
  const RestPeriodThreshold: real := 0.1
  /** Seconds of continuous rest after which capacity is adapted. */
  const RestPeriodTime: real := 5.0
  /** Initial value of the capacity adaptation rate field. */
  const CapacityAdaptationRate: real := 0.00005

  /** One call's worth of inputs to an update. */
  datatype Tick = Tick(voltage: real, current: real, temperature: real, dtSeconds: real)

  /** The modelled fields of the state record, as a value. */
  datatype Snapshot = Snapshot(
    socPercent: real,
    coulombCountUas: int,
    currentCapacityAh: real,
    nominalCapacityAh: real,
    kalmanGain: real,
    processNoise: real,
    measurementNoise: real,
    errorCovariance: real,
    sohPercent: real,
    capacityAdaptationRate: real,
    socErrorAccumulator: real,
    sohUpdateCount: int,
    updateCount: int,
    restPeriodActive: bool,
    restPeriodTimer: real,
    correctionHasBeenApplied: bool)

  /** State of health as the update paths compute it: capacity as a percentage of nominal. */
  function Soh(capacityAh: real, nominalAh: real): (soh: real)
    requires nominalAh > 0.0
    ensures 0.5 * nominalAh <= capacityAh <= 1.2 * nominalAh ==> 50.0 <= soh <= 120.0
  {
    capacityAh / nominalAh * 100.0
  }

  /**
   * What every update path needs of a state to be defined, and keeps: a
   * positive nominal capacity, the usable capacity in its band around it,
   * SOH derived from capacity, non-negative filter quantities and a positive
   * measurement noise (so the gain's denominator is positive), a gain in
   * [0, 1), a non-negative rest timer and counters in uint32 range.
   */
  ghost predicate WellFormed(s: Snapshot) {
    && s.nominalCapacityAh > 0.0
    && 0.5 * s.nominalCapacityAh <= s.currentCapacityAh <= 1.2 * s.nominalCapacityAh
    && s.sohPercent == Soh(s.currentCapacityAh, s.nominalCapacityAh)
    && s.processNoise >= 0.0
    && s.measurementNoise > 0.0
    && s.errorCovariance >= 0.0
    && 0.0 <= s.kalmanGain < 1.0
    && s.restPeriodTimer >= 0.0
    && IsUint32(s.sohUpdateCount)
    && IsUint32(s.updateCount)
  }

  /** The BMS_State record. Both implementations update it in place. */
  class State {
    var socPercent: real
    var coulombCountUas: int
    var currentCapacityAh: real
    var nominalCapacityAh: real
    var kalmanGain: real
    var processNoise: real
    var measurementNoise: real
    var errorCovariance: real
    var sohPercent: real
    var capacityAdaptationRate: real
    var socErrorAccumulator: real
    var sohUpdateCount: int
    var updateCount: int
    var restPeriodActive: bool
    var restPeriodTimer: real
    var correctionHasBeenApplied: bool

    /** The record's fields as a value. */
    function Snap(): Snapshot
      reads this
    {
      Snapshot(socPercent, coulombCountUas, currentCapacityAh, nominalCapacityAh,
               kalmanGain, processNoise, measurementNoise, errorCovariance,
               sohPercent, capacityAdaptationRate, socErrorAccumulator,
               sohUpdateCount, updateCount, restPeriodActive, restPeriodTimer,
               correctionHasBeenApplied)
    }
  }
}
