/**
 * What the estimator of bms_algo.c guarantees across calls: the state stays
 * well formed and the SOC stays a percentage, the charge counter integrates
 * the current exactly up to truncation, capacity adapts at most once per rest
 * period and exactly on the tick at which the rest time is reached, and the
 * counters count what they claim to count, modulo 2^32.
 */
module BmsAlgoProperties {
  import opened CArith
  import opened BmsHeader
  import opened BmsLookup
  import opened UpdateStages
  import opened BmsAlgo
  import LookupProperties

  // ---------------------------------------------------------------------
  // Current sensing
  // ---------------------------------------------------------------------

  /** Both channels sensing the same current decode to that current, in or out of channel 1's range. */
  lemma GetCurrentRecoversSensedCurrent(amps: real)
    ensures GetCurrent(2.5 + 0.0267 * amps, 2.5 + 0.004 * amps) == amps
  {
    assert Ch1Amps(2.5 + 0.0267 * amps) == amps;
    assert Ch2Amps(2.5 + 0.004 * amps) == amps;
  }

  // ---------------------------------------------------------------------
  // Functions over a sequence of ticks
  // ---------------------------------------------------------------------

  /** The rest monitor after a sequence of ticks. */
  function RestRun(m: RestMonitor, ticks: seq<Tick>): RestMonitor
    decreases |ticks|
  {
    if ticks == [] then m else RestTick(RestRun(m, ticks[..|ticks| - 1]), ticks[|ticks| - 1])
  }

  /** How many ticks of a sequence adapt capacity. */
  function Firings(m: RestMonitor, ticks: seq<Tick>): nat
    decreases |ticks|
  {
    if ticks == [] then 0
    else
      var prefix := ticks[..|ticks| - 1];
      Firings(m, prefix) + (if FiresOn(RestRun(m, prefix), ticks[|ticks| - 1]) then 1 else 0)
  }

  /** How many ticks of a sequence are accepted (dt > 0). */
  function Accepted(ticks: seq<Tick>): nat
    decreases |ticks|
  {
    if ticks == [] then 0
    else Accepted(ticks[..|ticks| - 1]) + (if ticks[|ticks| - 1].dtSeconds > 0.0 then 1 else 0)
  }

  /** The charge the accepted ticks of a sequence add to the counter. */
  function ChargeSum(ticks: seq<Tick>): int
    decreases |ticks|
  {
    if ticks == [] then 0
    else
      var t := ticks[|ticks| - 1];
      ChargeSum(ticks[..|ticks| - 1]) + (if t.dtSeconds > 0.0 then CoulombDelta(t.current, t.dtSeconds) else 0)
  }

  /** The total duration of a sequence of ticks. */
  function SumDt(ticks: seq<Tick>): real
    decreases |ticks|
  {
    if ticks == [] then 0.0 else SumDt(ticks[..|ticks| - 1]) + ticks[|ticks| - 1].dtSeconds
  }

  predicate AllRest(ticks: seq<Tick>) {
    forall k :: 0 <= k < |ticks| ==> IsRest(ticks[k].current)
  }

  predicate AllAccepted(ticks: seq<Tick>) {
    forall k :: 0 <= k < |ticks| ==> ticks[k].dtSeconds > 0.0
  }

  // ---------------------------------------------------------------------
  // One update
  // ---------------------------------------------------------------------

  /** An update keeps the invariant. */
  lemma StepPreservesInvariant(s: Snapshot, t: Tick)
    requires Invariant(s)
    ensures Invariant(Step(s, t))
  {
    StepKeepsRestConsistent(s, t);
  }

  /**
   * An accepted update fuses the two SOC readings: the new SOC lies between
   * the coulomb-counted SOC and the OCV SOC clamped to [0, 100], the gain is
   * in [0, 1), and the covariance does not exceed the predicted one.
   */
  lemma StepFusesReadings(s: Snapshot, current: real, dtSeconds: real, ocvSoc: real)
    requires WellFormed(s) && dtSeconds > 0.0
    ensures var r := StepWithOcv(s, current, dtSeconds, ocvSoc);
            var coulombSoc := ClampedCoulombSoc(s.coulombCountUas + CoulombDelta(current, dtSeconds), s.currentCapacityAh);
            var reading := Clamp(ocvSoc, 0.0, 100.0);
            && Min(coulombSoc, reading) <= r.socPercent <= Max(coulombSoc, reading)
            && 0.0 <= r.kalmanGain < 1.0
            && 0.0 <= r.errorCovariance <= s.errorCovariance + s.processNoise
  {
    var r := StepWithOcv(s, current, dtSeconds, ocvSoc);
    var coulombSoc := ClampedCoulombSoc(s.coulombCountUas + CoulombDelta(current, dtSeconds), s.currentCapacityAh);
    var gain := KalmanGain(s.errorCovariance + s.processNoise, s.measurementNoise);
    var blended := Blend(coulombSoc, ocvSoc, gain);
    assert r.socPercent == Clamp(blended, 0.0, 100.0);
  }

  /**
   * An accepted update adds the tick's charge to the counter: within one
   * unit of current·dt·10^6, never against the current's sign.
   */
  lemma StepIntegratesCharge(s: Snapshot, current: real, dtSeconds: real, ocvSoc: real)
    requires WellFormed(s) && dtSeconds > 0.0
    ensures var r := StepWithOcv(s, current, dtSeconds, ocvSoc);
            && Abs((r.coulombCountUas - s.coulombCountUas) as real - current * dtSeconds * CoulombScaleFactor) < 1.0
            && (current >= 0.0 ==> r.coulombCountUas >= s.coulombCountUas)
            && (current <= 0.0 ==> r.coulombCountUas <= s.coulombCountUas)
  {
    var r := StepWithOcv(s, current, dtSeconds, ocvSoc);
    assert r.coulombCountUas == s.coulombCountUas + CoulombDelta(current, dtSeconds);
    if current >= 0.0 {
      MulNonNegative(current, dtSeconds);
    } else {
      MulNonNegative(-current, dtSeconds);
    }
  }

  /**
   * The rest monitor and the two counters evolve independently of the
   * voltage and temperature: an update advances the monitor, counts a
   * correction exactly when the monitor fires, and counts every accepted
   * tick. Capacity and SOH change only on a correction; then capacity moves
   * by the SOC error (OCV SOC minus coulomb-counted SOC) scaled by the
   * adaptation rate, and SOH follows capacity.
   */
  lemma StepAdvancesRestMonitor(s: Snapshot, t: Tick)
    requires WellFormed(s)
    ensures var r := Step(s, t);
            var fires := FiresOn(RestOf(s), t);
            && RestOf(r) == RestTick(RestOf(s), t)
            && r.sohUpdateCount == (if fires then Uint32Succ(s.sohUpdateCount) else s.sohUpdateCount)
            && r.updateCount == (if t.dtSeconds > 0.0 then Uint32Succ(s.updateCount) else s.updateCount)
            && (!fires ==> r.currentCapacityAh == s.currentCapacityAh && r.sohPercent == s.sohPercent)
            && r.nominalCapacityAh == s.nominalCapacityAh
  {
    if t.dtSeconds > 0.0 {
      StepAdvancesRestMonitorOnReading(s, t.current, t.dtSeconds, OcvSoc(t.voltage, t.temperature));
    }
  }

  lemma StepAdvancesRestMonitorOnReading(s: Snapshot, current: real, dtSeconds: real, ocvSoc: real)
    requires WellFormed(s) && dtSeconds > 0.0
    ensures var r := StepWithOcv(s, current, dtSeconds, ocvSoc);
            var fires := Fires(RestOf(s), current, dtSeconds);
            && RestOf(r) == RestStep(RestOf(s), current, dtSeconds)
            && r.sohUpdateCount == (if fires then Uint32Succ(s.sohUpdateCount) else s.sohUpdateCount)
            && r.updateCount == Uint32Succ(s.updateCount)
            && (!fires ==> r.currentCapacityAh == s.currentCapacityAh && r.sohPercent == s.sohPercent)
            && r.nominalCapacityAh == s.nominalCapacityAh
  {
  }

  /** On a correction the capacity takes one adaptation step for the tick's SOC error. */
  lemma StepAdaptsCapacity(s: Snapshot, current: real, dtSeconds: real, ocvSoc: real)
    requires WellFormed(s) && dtSeconds > 0.0 && Fires(RestOf(s), current, dtSeconds)
    ensures var r := StepWithOcv(s, current, dtSeconds, ocvSoc);
            var coulombSoc := ClampedCoulombSoc(s.coulombCountUas + CoulombDelta(current, dtSeconds), s.currentCapacityAh);
            && r.currentCapacityAh == AdaptedCapacity(s.currentCapacityAh, s.nominalCapacityAh, s.capacityAdaptationRate, ocvSoc - coulombSoc)
            && r.sohPercent == r.currentCapacityAh / s.nominalCapacityAh * 100.0
            && r.correctionHasBeenApplied
  {
  }

  /**
   * One adaptation step moves the capacity toward the OCV reading: up when
   * the OCV SOC exceeds the coulomb-counted SOC, down when it is below, by
   * at most |error|·nominal·rate/10 and never out of [0.5, 1.2]·nominal.
   */
  lemma AdaptedCapacityFollowsError(capacityAh: real, nominalAh: real, rate: real, socError: real)
    requires nominalAh > 0.0 && rate >= 0.0
    requires 0.5 * nominalAh <= capacityAh <= 1.2 * nominalAh
    ensures var c := AdaptedCapacity(capacityAh, nominalAh, rate, socError);
            && 0.5 * nominalAh <= c <= 1.2 * nominalAh
            && (socError >= 0.0 ==> capacityAh <= c <= capacityAh + socError * nominalAh / 100.0 * (rate * 10.0))
            && (socError <= 0.0 ==> capacityAh + socError * nominalAh / 100.0 * (rate * 10.0) <= c <= capacityAh)
  {
    var delta := socError * nominalAh / 100.0 * (rate * 10.0);
    if socError >= 0.0 {
      MulNonNegative(socError * nominalAh / 100.0, rate * 10.0);
    } else {
      MulNonNegative(-socError * nominalAh / 100.0, rate * 10.0);
      assert delta == -((-socError * nominalAh / 100.0) * (rate * 10.0));
    }
  }

  /** A tick that is not rest ends any rest period. */
  lemma NonRestTickEndsRestPeriod(m: RestMonitor, t: Tick)
    requires t.dtSeconds > 0.0 && !IsRest(t.current)
    ensures RestTick(m, t) == RestMonitor(false, 0.0, false)
    ensures !FiresOn(m, t)
  {
  }

  // ---------------------------------------------------------------------
  // Sequences of updates
  // ---------------------------------------------------------------------

  /** Every state reachable from one satisfying the invariant satisfies it. */
  lemma {:induction false} RunPreservesInvariant(s: Snapshot, ticks: seq<Tick>)
    requires Invariant(s)
    ensures Invariant(Run(s, ticks))
    decreases |ticks|
  {
    if ticks != [] {
      var prefix := ticks[..|ticks| - 1];
      RunPreservesInvariant(s, prefix);
      StepPreservesInvariant(Run(s, prefix), ticks[|ticks| - 1]);
    }
  }

  /** Once a tick has been accepted the SOC is a percentage, and it stays one. */
  lemma {:induction false} RunKeepsSocInRange(s: Snapshot, ticks: seq<Tick>)
    requires WellFormed(s)
    requires (0.0 <= s.socPercent <= 100.0) || Accepted(ticks) > 0
    ensures 0.0 <= Run(s, ticks).socPercent <= 100.0
    decreases |ticks|
  {
    if ticks != [] {
      var prefix := ticks[..|ticks| - 1];
      var t := ticks[|ticks| - 1];
      if t.dtSeconds > 0.0 {
        StepFusesReadings(Run(s, prefix), t.current, t.dtSeconds, OcvSoc(t.voltage, t.temperature));
      } else {
        RunKeepsSocInRange(s, prefix);
      }
    }
  }

  /** A uint32_t counter incremented k times. */
  function Uint32Add(a: int, k: nat): (r: int)
    requires IsUint32(a)
    ensures IsUint32(r)
    decreases k
  {
    if k == 0 then a else Uint32Succ(Uint32Add(a, k - 1))
  }

  /** The last tick of a sequence is applied to the state the others reach. */
  lemma RunUnfolds(s: Snapshot, ticks: seq<Tick>)
    requires WellFormed(s) && ticks != []
    ensures Run(s, ticks) == Step(Run(s, ticks[..|ticks| - 1]), ticks[|ticks| - 1])
  {
  }

  lemma StepCountsUpdate(s: Snapshot, t: Tick)
    requires WellFormed(s)
    ensures Step(s, t).updateCount == (if t.dtSeconds > 0.0 then Uint32Succ(s.updateCount) else s.updateCount)
  {
    StepAdvancesRestMonitor(s, t);
  }

  lemma StepCountsCorrection(s: Snapshot, t: Tick)
    requires WellFormed(s)
    ensures Step(s, t).sohUpdateCount == (if FiresOn(RestOf(s), t) then Uint32Succ(s.sohUpdateCount) else s.sohUpdateCount)
  {
    StepAdvancesRestMonitor(s, t);
  }

  lemma FiringsUnfold(a: int, m: RestMonitor, ticks: seq<Tick>)
    requires IsUint32(a) && ticks != []
    ensures var prefix := ticks[..|ticks| - 1];
            var k := Uint32Add(a, Firings(m, prefix));
            Uint32Add(a, Firings(m, ticks)) == (if FiresOn(RestRun(m, prefix), ticks[|ticks| - 1]) then Uint32Succ(k) else k)
  {
    var prefix := ticks[..|ticks| - 1];
    var n := Firings(m, prefix);
    if FiresOn(RestRun(m, prefix), ticks[|ticks| - 1]) {
      assert Firings(m, ticks) == n + 1;
    } else {
      assert Firings(m, ticks) == n;
    }
  }

  lemma AcceptedUnfolds(a: int, ticks: seq<Tick>)
    requires IsUint32(a) && ticks != []
    ensures var k := Uint32Add(a, Accepted(ticks[..|ticks| - 1]));
            Uint32Add(a, Accepted(ticks)) == (if ticks[|ticks| - 1].dtSeconds > 0.0 then Uint32Succ(k) else k)
  {
    var n := Accepted(ticks[..|ticks| - 1]);
    if ticks[|ticks| - 1].dtSeconds > 0.0 {
      assert Accepted(ticks) == n + 1;
    } else {
      assert Accepted(ticks) == n;
    }
  }

  lemma WrapSucc(a: int, k: int)
    requires IsUint32(a) && k >= 0
    ensures Uint32Succ((a + k) % (Uint32Max + 1)) == (a + k + 1) % (Uint32Max + 1)
  {
    var n := (a + k) % (Uint32Max + 1);
    var q := (a + k) / (Uint32Max + 1);
    Uint32SuccIsModular(n);
    assert a + k == q * (Uint32Max + 1) + n;
    assert a + k + 1 == q * (Uint32Max + 1) + (n + 1);
    if n + 1 == Uint32Max + 1 {
      assert a + k + 1 == (q + 1) * (Uint32Max + 1);
    }
  }

  /** Incrementing a uint32_t counter k times adds k modulo 2^32. */
  lemma {:induction false} Uint32AddWraps(a: int, k: nat)
    requires IsUint32(a)
    ensures Uint32Add(a, k) == (a + k) % (Uint32Max + 1)
    decreases k
  {
    if k > 0 {
      Uint32AddWraps(a, k - 1);
      WrapSucc(a, k - 1);
    }
  }

  /** Over any sequence of ticks the rest fields follow the rest monitor alone. */
  lemma {:induction false} RunFollowsRestMonitor(s: Snapshot, ticks: seq<Tick>)
    requires WellFormed(s)
    ensures RestOf(Run(s, ticks)) == RestRun(RestOf(s), ticks)
    decreases |ticks|
  {
    if ticks != [] {
      var prefix := ticks[..|ticks| - 1];
      RunFollowsRestMonitor(s, prefix);
      StepAdvancesRestMonitor(Run(s, prefix), ticks[|ticks| - 1]);
    }
  }

  /** soh_update_count is advanced once per correction. */
  lemma {:induction false} RunCountsCorrections(s: Snapshot, ticks: seq<Tick>)
    requires WellFormed(s)
    ensures Run(s, ticks).sohUpdateCount == Uint32Add(s.sohUpdateCount, Firings(RestOf(s), ticks))
    decreases |ticks|
  {
    if ticks != [] {
      var prefix := ticks[..|ticks| - 1];
      var t := ticks[|ticks| - 1];
      RunCountsCorrections(s, prefix);
      RunFollowsRestMonitor(s, prefix);
      RunUnfolds(s, ticks);
      StepCountsCorrection(Run(s, prefix), t);
      FiringsUnfold(s.sohUpdateCount, RestOf(s), ticks);
    }
  }

  /** update_count is advanced once per accepted tick. */
  lemma {:induction false} RunCountsUpdates(s: Snapshot, ticks: seq<Tick>)
    requires WellFormed(s)
    ensures Run(s, ticks).updateCount == Uint32Add(s.updateCount, Accepted(ticks))
    decreases |ticks|
  {
    if ticks != [] {
      var prefix := ticks[..|ticks| - 1];
      var t := ticks[|ticks| - 1];
      RunCountsUpdates(s, prefix);
      RunUnfolds(s, ticks);
      StepCountsUpdate(Run(s, prefix), t);
      AcceptedUnfolds(s.updateCount, ticks);
    }
  }

  /** The counter after a sequence of ticks is the initial count plus the charge of the accepted ticks. */
  lemma {:induction false} RunIntegratesCharge(s: Snapshot, ticks: seq<Tick>)
    requires WellFormed(s)
    ensures Run(s, ticks).coulombCountUas == s.coulombCountUas + ChargeSum(ticks)
    decreases |ticks|
  {
    if ticks != [] {
      var prefix := ticks[..|ticks| - 1];
      var t := ticks[|ticks| - 1];
      RunIntegratesCharge(s, prefix);
      if t.dtSeconds > 0.0 {
        StepIntegratesCharge(Run(s, prefix), t.current, t.dtSeconds, OcvSoc(t.voltage, t.temperature));
        assert Run(s, ticks).coulombCountUas == Run(s, prefix).coulombCountUas + CoulombDelta(t.current, t.dtSeconds);
      }
    }
  }

  /** Without a rest tick, capacity and SOH never change. */
  lemma {:induction false} RunWithoutRestKeepsCapacity(s: Snapshot, ticks: seq<Tick>)
    requires WellFormed(s)
    requires forall k :: 0 <= k < |ticks| ==> !IsRest(ticks[k].current)
    ensures Run(s, ticks).currentCapacityAh == s.currentCapacityAh
    ensures Run(s, ticks).sohPercent == s.sohPercent
    decreases |ticks|
  {
    if ticks != [] {
      var prefix := ticks[..|ticks| - 1];
      RunWithoutRestKeepsCapacity(s, prefix);
      StepAdvancesRestMonitor(Run(s, prefix), ticks[|ticks| - 1]);
    }
  }

  /**
   * Within one rest period capacity is adapted at most once: over ticks
   * that are all rest, the monitor fires at most once (never, if the
   * correction was already applied), and once it has fired the correction
   * stays marked as applied.
   */
  lemma {:induction false} AtMostOneCorrectionPerRestPeriod(m: RestMonitor, ticks: seq<Tick>)
    requires AllRest(ticks)
    ensures Firings(m, ticks) <= (if m.applied then 0 else 1)
    ensures RestRun(m, ticks).applied == (m.applied || Firings(m, ticks) == 1)
    decreases |ticks|
  {
    if ticks != [] {
      var prefix := ticks[..|ticks| - 1];
      assert AllRest(prefix) by {
        forall k | 0 <= k < |prefix| ensures IsRest(prefix[k].current) {
          assert prefix[k] == ticks[k];
        }
      }
      AtMostOneCorrectionPerRestPeriod(m, prefix);
    }
  }

  /**
   * From outside a rest period, over rest ticks of positive duration, the
   * monitor is in a rest period whose timer is the time elapsed, and the
   * correction is marked applied exactly when that time has reached the
   * rest time.
   */
  lemma {:induction false} RestRunFromIdle(m: RestMonitor, ticks: seq<Tick>)
    requires !m.active && !m.applied
    requires AllRest(ticks) && AllAccepted(ticks) && |ticks| >= 1
    ensures RestRun(m, ticks) == RestMonitor(true, SumDt(ticks), SumDt(ticks) >= RestPeriodTime)
    decreases |ticks|
  {
    var prefix := ticks[..|ticks| - 1];
    var t := ticks[|ticks| - 1];
    assert t == ticks[|ticks| - 1];
    if |prefix| >= 1 {
      assert AllRest(prefix) && AllAccepted(prefix) by {
        forall k | 0 <= k < |prefix| ensures IsRest(prefix[k].current) && prefix[k].dtSeconds > 0.0 {
          assert prefix[k] == ticks[k];
        }
      }
      RestRunFromIdle(m, prefix);
    } else {
      assert prefix == [];
    }
  }

  /**
   * From outside a rest period, over rest ticks of positive duration, the
   * correction happens on exactly the tick during which the elapsed rest
   * time reaches the rest time.
   */
  lemma FiresWhenRestTimeReached(m: RestMonitor, ticks: seq<Tick>, k: int)
    requires !m.active && !m.applied
    requires AllRest(ticks) && AllAccepted(ticks) && 0 <= k < |ticks|
    ensures FiresOn(RestRun(m, ticks[..k]), ticks[k])
            <==> SumDt(ticks[..k]) < RestPeriodTime <= SumDt(ticks[..k + 1])
  {
    var prefix := ticks[..k];
    assert ticks[..k + 1][..k] == prefix;
    assert SumDt(ticks[..k + 1]) == SumDt(prefix) + ticks[k].dtSeconds;
    if k >= 1 {
      assert AllRest(prefix) && AllAccepted(prefix) by {
        forall i | 0 <= i < |prefix| ensures IsRest(prefix[i].current) && prefix[i].dtSeconds > 0.0 {
          assert prefix[i] == ticks[i];
        }
      }
      RestRunFromIdle(m, prefix);
    } else {
      assert prefix == [];
    }
  }

  /** The number of firings never decreases as ticks are added. */
  lemma {:induction false} FiringsOfPrefix(m: RestMonitor, ticks: seq<Tick>, j: int)
    requires 0 <= j <= |ticks|
    ensures Firings(m, ticks[..j]) <= Firings(m, ticks)
    decreases |ticks|
  {
    if j < |ticks| {
      var prefix := ticks[..|ticks| - 1];
      assert prefix[..j] == ticks[..j];
      FiringsOfPrefix(m, prefix, j);
    } else {
      assert ticks[..j] == ticks;
    }
  }

  // ---------------------------------------------------------------------
  // Sequences of identical ticks
  // ---------------------------------------------------------------------

  predicate Repeats(ticks: seq<Tick>, t: Tick) {
    forall k :: 0 <= k < |ticks| ==> ticks[k] == t
  }

  lemma {:induction false} RepeatedSums(ticks: seq<Tick>, t: Tick)
    requires Repeats(ticks, t) && t.dtSeconds > 0.0
    ensures SumDt(ticks) == (|ticks| as real) * t.dtSeconds
    ensures ChargeSum(ticks) == |ticks| * CoulombDelta(t.current, t.dtSeconds)
    decreases |ticks|
  {
    if ticks != [] {
      var prefix := ticks[..|ticks| - 1];
      assert Repeats(prefix, t) by {
        forall k | 0 <= k < |prefix| ensures prefix[k] == t {
          assert prefix[k] == ticks[k];
        }
      }
      RepeatedSums(prefix, t);
      assert ticks[|ticks| - 1] == t;
    }
  }

  /**
   * Ten one-second ticks at 50 mA after initialisation: the rest time is
   * reached during the fifth tick, which is the one tick that adapts
   * capacity, so soh_update_count ends at 1.
   */
  lemma TenSecondsAtRestAdaptOnce(initialSocPercent: real, nominalCapacityAh: real, voltage: real,
                                  temperature: real, ticks: seq<Tick>)
    requires nominalCapacityAh > 0.0
    requires |ticks| == 10 && Repeats(ticks, Tick(voltage, 0.05, temperature, 1.0))
    ensures var s := Initial(initialSocPercent, nominalCapacityAh);
            && (forall k :: 0 <= k < 10 ==> (FiresOn(RestRun(RestOf(s), ticks[..k]), ticks[k]) <==> k == 4))
            && Run(s, ticks).sohUpdateCount == 1
  {
    var s := Initial(initialSocPercent, nominalCapacityAh);
    var t := Tick(voltage, 0.05, temperature, 1.0);
    var m := RestOf(s);
    assert AllRest(ticks) && AllAccepted(ticks);
    forall k | 0 <= k < 10
      ensures FiresOn(RestRun(m, ticks[..k]), ticks[k]) <==> k == 4
    {
      FiresWhenRestTimeReached(m, ticks, k);
      assert Repeats(ticks[..k], t) && Repeats(ticks[..k + 1], t);
      RepeatedSums(ticks[..k], t);
      RepeatedSums(ticks[..k + 1], t);
    }
    AtMostOneCorrectionPerRestPeriod(m, ticks);
    FiringsOfPrefix(m, ticks, 5);
    assert ticks[..5][..4] == ticks[..4];
    assert FiresOn(RestRun(m, ticks[..4]), ticks[4]);
    assert Firings(m, ticks[..5]) >= 1;
    RunCountsCorrections(s, ticks);
  }

  /**
   * An hour at 5 A in 0.1 s ticks from 50 % of a 100 Ah battery: the
   * counter gains 1.8·10^10 µA·s, the capacity is untouched, and the
   * coulomb-counted SOC rises from 50 % to 55 %.
   */
  lemma HourAtFiveAmpsAddsFivePercent(voltage: real, temperature: real, ticks: seq<Tick>)
    requires |ticks| == 36000 && Repeats(ticks, Tick(voltage, 5.0, temperature, 0.1))
    ensures var s := Initial(50.0, 100.0);
            var r := Run(s, ticks);
            && r.coulombCountUas == s.coulombCountUas + 18_000_000_000
            && r.currentCapacityAh == 100.0
            && CoulombSoc(s.coulombCountUas, 100.0) == 50.0
            && CoulombSoc(r.coulombCountUas, r.currentCapacityAh) == 55.0
  {
    var s := Initial(50.0, 100.0);
    var t := Tick(voltage, 5.0, temperature, 0.1);
    assert CoulombDelta(5.0, 0.1) == 500_000;
    RepeatedSums(ticks, t);
    RunIntegratesCharge(s, ticks);
    RunWithoutRestKeepsCapacity(s, ticks);
    assert s.coulombCountUas == 180_000_000_000;
  }

  /**
   * Right after initialisation at 50.91 %, a zero-current tick whose voltage
   * (sample 50 of the axis, at 296 K) reads back exactly that SOC leaves the
   * SOC where it is and lowers the covariance.
   */
  lemma AgreeingReadingKeepsSoc()
    ensures var s := Initial(50.91, 100.0);
            var r := Step(s, Tick(VLookupAxis()[50], 0.0, 296.0, 1.0));
            && OcvSoc(VLookupAxis()[50], 296.0) == 50.91
            && r.socPercent == 50.91
            && r.errorCovariance < s.errorCovariance
  {
    var s := Initial(50.91, 100.0);
    LookupProperties.OcvSocAtCalibratedPoint();
    assert s.coulombCountUas == 183_276_000_000;
    assert CoulombDelta(0.0, 1.0) == 0;
    assert ClampedCoulombSoc(s.coulombCountUas, 100.0) == 50.91;
  }
}
