/**
 * The per-tick computations that both implementations of BMS_Update write
 * out identically: the fixed-point charge increment, the SOC the charge
 * counter stands for, the scalar Kalman predict/update step, and the band
 * the usable capacity is clamped to.
 */
module UpdateStages {
  import opened CArith
  import opened BmsHeader

  /**
   * `(int64_t)(current * dt_seconds * COULOMB_SCALE_FACTOR)`: the charge
   * moved during one tick in 10^-6 A·s, truncated toward zero.
   */
  function CoulombDelta(current: real, dtSeconds: real): (n: int)
    ensures Abs(n as real - current * dtSeconds * CoulombScaleFactor) < 1.0
    ensures current * dtSeconds >= 0.0 ==> n >= 0
    ensures current * dtSeconds <= 0.0 ==> n <= 0
  {
    TruncToInt(current * dtSeconds * CoulombScaleFactor)
  }

  /** The SOC (%) a charge count stands for at a given usable capacity, before clamping. */
  function CoulombSoc(countUas: int, capacityAh: real): real
    requires capacityAh > 0.0
  {
    (countUas as real) / (capacityAh * 3600.0 * CoulombScaleFactor) * 100.0
  }

  /** The count that BMS_Init derives from an initial SOC and capacity. */
  function InitialCount(initialSocPercent: real, nominalCapacityAh: real): int {
    TruncToInt(initialSocPercent * nominalCapacityAh * 3600.0 * CoulombScaleFactor / 100.0)
  }

  /** The Kalman gain for a predicted covariance and a measurement noise. */
  function KalmanGain(predictedP: real, measurementNoise: real): (gain: real)
    requires predictedP >= 0.0 && measurementNoise > 0.0
    ensures 0.0 <= gain < 1.0
    ensures predictedP > 0.0 ==> gain > 0.0
  {
    predictedP / (predictedP + measurementNoise)
  }

  /**
   * The update of the estimate: the prior moved toward the measurement by
   * the gain. The result is between the two, and its distance to the
   * measurement is the prior's distance scaled by (1 - gain).
   */
  function Blend(prior: real, measurement: real, gain: real): (r: real)
    requires 0.0 <= gain <= 1.0
    ensures Min(prior, measurement) <= r <= Max(prior, measurement)
    ensures r - measurement == (1.0 - gain) * (prior - measurement)
  {
    PartOfGap(prior, measurement, gain);
    prior + gain * (measurement - prior)
  }

  /** The posterior covariance; never negative and never above the predicted one. */
  function PosteriorCovariance(gain: real, predictedP: real): (p: real)
    requires 0.0 <= gain <= 1.0 && predictedP >= 0.0
    ensures 0.0 <= p <= predictedP
    ensures gain > 0.0 && predictedP > 0.0 ==> p < predictedP
  {
    assert gain * predictedP >= 0.0;
    (1.0 - gain) * predictedP
  }

  /** The usable capacity clamped to [0.5, 1.2] times nominal. */
  function ClampCapacity(capacityAh: real, nominalAh: real): (c: real)
    requires nominalAh > 0.0
    ensures 0.5 * nominalAh <= c <= 1.2 * nominalAh
    ensures 0.5 * nominalAh <= capacityAh <= 1.2 * nominalAh ==> c == capacityAh
  {
    Clamp(capacityAh, 0.5 * nominalAh, 1.2 * nominalAh)
  }
}
