# Battery state estimator: a Dafny model

This project models the core of a battery management algorithm. Its open-circuit-voltage axis spans about 12.06–13.41 V. Its parts:

- **State record.** `BMS_State` with its constants, from `bms_algo.h`.
- **Current selection.** `BMS_GetCurrent` picks between the two channels of a current sensor.
- **Lookup engine.** A bilinear table interpolation, `BMS_BilinearInterpolate`, and the two calibration lookups built on it:
  - open-circuit-voltage SOC (`BMS_GetOCVSOC`);
  - internal resistance (`BMS_GetInternalResistance`).
- **Estimator.** `BMS_Init` and `BMS_Update`. Each update goes through these steps:
  - coulomb counting into a 64-bit micro-ampere-second counter;
  - a scalar Kalman blend of the counted SOC with the OCV SOC;
  - rest-period detection;
  - once the battery has rested for 5 s, a capacity (state-of-health) adaptation.
- **Earlier estimator.** `bms_algo_backup.c` keeps the same interface. It is modelled as a separate module (`BmsAlgoBackup`) and compared with the live one.

Modules, in dependency order:

| module | file | models |
|---|---|---|
| `CArith` | `c_arith.dfy` | The C arithmetic the code relies on: `fabsf`, the truncating `(int64_t)` cast, `uint32_t` increment with wrap-around, clamping. |
| `BmsHeader` | `bms_header.dfy` | The constants, the `State` class with one field per modelled `BMS_State` member, its value `Snapshot`, and the well-formedness predicate. |
| `UpdateStages` | `update_stages.dfy` | The arithmetic of one update, shared by both estimators: charge of a tick, counted SOC, Kalman gain, blend, posterior covariance, capacity clamp. |
| `BmsLookup` | `bms_lookup.dfy` | The interpolation, as a specification function `Bilinear` and as the C loop-and-formula method, plus the calibration tables. |
| `LookupProperties` | `lookup_properties.dfy` | What the interpolation and the calibration lookups guarantee. |
| `BmsAlgo` | `bms_algo.dfy` | `BMS_GetCurrent`, `BMS_Init` and `BMS_Update` of `bms_algo.c`. |
| `BmsAlgoProperties` | `bms_algo_properties.dfy` | What the live estimator guarantees over one update and over sequences of updates. |
| `BmsAlgoBackup` | `bms_algo_backup.dfy` | All of `bms_algo_backup.c`. |
| `BmsAlgoBackupProperties` | `bms_algo_backup_properties.dfy` | What the earlier estimator does, set against the live one. |

The methods follow the C code statement by statement and write the fields of a `State` object in place.

- Each method is proved to leave the state equal to a pure function of the old state: `Initial`, `Step`, or one of the stage functions `ChargeStage`, `FuseStage`, `AdaptStage`, `RestStage` or `CorrectStage`.
- The properties are proved about those functions.
- `Run` folds `Step` over a sequence of ticks, where a tick is one call's inputs. Properties of whole runs are proved by induction over it.

Arithmetic:

- Floats are modelled as mathematical reals.
- The `(int64_t)` cast truncates toward zero.
- Incrementing a `uint32_t` wraps to 0 after 2^32 − 1.
- A result of the `int64_t` counter outside its range would be undefined behaviour in C, so the update methods require it to stay in range.

The calibration tables are written in closed form. Each form reproduces every literal of the C arrays:

- Live voltage axis: 12.0584 + 0.0137·i V.
- Live SOC table: row i < 99 holds round(100·i/99, 2) plus a temperature bias of 0, 0.2, 0.4, 0.5, 0.4, 0.2, 0 points. Row 99 holds 100.
- Backup voltage axis: 440 samples, round(12.05844 + 0.00537333·i, 5).
- Backup SOC table: 440×7. The first 100 rows hold the row number. The remaining rows are zero, because C zero-initialises them.

## Model

| member | source | states |
|---|---|---|
| `CArith.Abs` | bms_algo.c:145 | `fabsf`: the result is non-negative and is x or −x. |
| `CArith.TruncToInt` | bms_algo.c:223 | The `(int64_t)` cast truncates toward zero: the result is the integer part of x, on either side of zero. |
| `CArith.Uint32Succ` | bms_algo.c:278 | `update_count++` on a uint32_t: the result stays a uint32_t, is n + 1, and is 0 exactly when n was the maximum. |
| `CArith.Uint32SuccIsModular` | bms_algo.c:254 | A uint32_t increment adds one modulo 2^32. |
| `CArith.Clamp` | bms_algo.c:228-229 | A clamp returns a value in [lo, hi]: v itself inside, lo below, hi above. |
| `BmsHeader.Soh` | bms_algo.c:266 | SOH is capacity over nominal in percent. A capacity in [0.5, 1.2]·nominal gives an SOH in [50, 120]. |
| `UpdateStages.CoulombDelta` | bms_algo.c:223 | A tick's charge in µA·s is within one unit of current·dt·10^6 and has the sign of current·dt. |
| `UpdateStages.KalmanGain` | bms_algo.c:237 | The gain lies in [0, 1). It is positive when the predicted covariance is. |
| `UpdateStages.Blend` | bms_algo.c:239 | The fused SOC lies between the counted and the OCV SOC. Its distance to the OCV SOC is (1 − gain) times the counted SOC's. |
| `UpdateStages.PosteriorCovariance` | bms_algo.c:241 | The posterior covariance is non-negative and never exceeds the predicted one. It is strictly smaller when gain and prediction are positive. |
| `UpdateStages.ClampCapacity` | bms_algo.c:259-264 | Capacity is clamped into [0.5, 1.2]·nominal and is unchanged when already inside. |
| `BmsLookup.FlatIndexInBounds` | bms_algo.c:169-172 | Every corner index `i * y_size + j` of the flattened table is within the table. |
| `BmsLookup.SegmentFrom` | bms_algo.c:155-157 | The scan stops at the first segment that is the last one or whose upper end is at least the input; every sample it passed is below the input. |
| `BmsLookup.FindSegment` | bms_algo.c:154-162 | The C scan loop returns a valid segment with the scan's defining properties, equal to `Segment`. |
| `BmsLookup.BilinearInterpolate` | bms_algo.c:152-182 | The C routine returns `Bilinear`: the selected cell's corner when a side has zero width, otherwise the cell's surface, y first then x. |
| `BmsLookup.GetOcvSoc` | bms_algo.c:184-187 | The OCV lookup interpolates the 100×7 SOC table over the voltage and temperature axes. |
| `BmsLookup.GetInternalResistance` | bms_algo.c:189-192 | The resistance lookup interpolates the 10×7 table over the SOC and temperature axes. |
| `LookupProperties.SegmentCharacterised` | bms_algo.c:154-157 | The scan's result is the only index with its two defining properties. |
| `LookupProperties.SegmentBelowAxis` | bms_algo.c:155-157 | An input at or below the second sample selects segment 0, also below the axis. |
| `LookupProperties.SegmentAboveAxis` | bms_algo.c:155-157 | On an increasing axis, an input beyond the last interior sample selects the last segment, also above the axis. |
| `LookupProperties.SegmentAtSample` | bms_algo.c:155-157 | At sample k the scan selects the segment ending at k (segment 0 for k = 0). |
| `LookupProperties.SegmentBrackets` | bms_algo.c:155-167 | Inside an increasing axis, the selected segment's ends bracket the input. |
| `LookupProperties.LerpAtEnds` | bms_algo.c:178-181 | Linear interpolation returns the given values at the two sample points. |
| `LookupProperties.LerpAsFraction` | bms_algo.c:178-181 | The weighted form of the C code equals the first value plus a fraction of the gap. |
| `LookupProperties.FractionInUnit` | bms_algo.c:178-181 | Between the sample points the interpolation fraction lies in [0, 1]. |
| `LookupProperties.LerpBetween` | bms_algo.c:178-181 | Between its sample points, interpolation stays between the two values. |
| `LookupProperties.BilinearAtVertex` | bms_algo.c:152-182 | At a grid vertex of increasing axes the interpolation returns that table entry. |
| `LookupProperties.BilinearWithinCorners` | bms_algo.c:152-182 | Inside the grid, the result lies between the smallest and the largest corner of its cell. |
| `LookupProperties.BilinearWithinTableBounds` | bms_algo.c:152-182 | Inside the grid, the result stays within any bounds that every table entry meets. |
| `LookupProperties.CellsAgreeOnSharedEdge` | bms_algo.c:178-181 | Cells that meet on an interior x sample give the same value there, for every y. |
| `LookupProperties.CellsAgreeOnSharedEdgeAlongY` | bms_algo.c:178-181 | Cells that meet on an interior y sample give the same value there, for every x. Together with the x lemma, the surface has no jump on any interior sample line. |
| `LookupProperties.BilinearOnZeroWidthCell` | bms_algo.c:174-176 | Whenever the selected cell has zero width along either axis, the interpolation returns that cell's lower-left entry, whatever the inputs. |
| `LookupProperties.ZeroWidthCellYieldsCorner` | bms_algo.c:174-176 | With a zero-width cell the interpolation returns the lower-left corner for every input. |
| `LookupProperties.CalibrationAxesIncrease` | bms_algo.c:5-20 | The voltage, temperature and SOC axes strictly increase. |
| `LookupProperties.SocTableEntriesArePercentages` | bms_algo.c:22-123 | Every entry of the SOC table lies in [0, 100]. |
| `LookupProperties.OcvSocInRangeWithinAxes` | bms_algo.c:184-187 | For a voltage and a temperature inside the axes, the OCV SOC is a percentage. |
| `LookupProperties.OcvSocExtrapolatesBelowTemperatureAxis` | bms_algo.c:184-187 | Inputs outside the axes are extrapolated, not clamped: 12.0584 V at 25 (Celsius against a kelvin axis) reads −4.76 %. |
| `LookupProperties.OcvSocAtCalibratedPoint` | bms_algo.c:184-187 | At voltage sample 50 and 296 K the OCV lookup returns the table's 50.91 %. |
| `LookupProperties.InternalResistanceAtSample` | bms_algo.c:189-192 | At 50 % and 296 K the resistance lookup returns the table's 0.008 Ω. |
| `BmsAlgo.GetCurrent` | bms_algo.c:140-150 | Channel 1, (v − 2.5)/0.0267, is used exactly when its reading is within ±70 A, i.e. 0.631 V ≤ v ≤ 4.369 V. Otherwise channel 2, (v − 2.5)/0.004, is used. |
| `BmsAlgo.Initial` | bms_algo.c:194-218 | The state `BMS_Init` writes satisfies the estimator's invariant for a positive nominal capacity. |
| `BmsAlgo.ClampedCoulombSoc` | bms_algo.c:226-229 | The counted SOC after clamping is a percentage. |
| `BmsAlgo.StepKeepsRestConsistent` | bms_algo.c:246-276 | An update keeps the invariant. Outside a rest period there is no timer and no correction flag. |
| `BmsAlgo.Init` | bms_algo.c:194-218 | `BMS_Init` leaves the record equal to `Initial`: count = trunc(soc·capacity·3600·10^6/100), covariance 0.1, SOH 100, counters 0, rest monitor cleared. |
| `BmsAlgo.IntegrateCharge` | bms_algo.c:223-229 | The counter gains the tick's charge. The returned SOC is the clamped SOC that the new count stands for. |
| `BmsAlgo.FuseEstimates` | bms_algo.c:233-244 | The Kalman step writes gain, fused SOC clamped to [0, 100] and posterior covariance, and nothing else. |
| `BmsAlgo.AdaptCapacity` | bms_algo.c:254-270 | The correction counts itself, moves capacity by error·nominal/100·rate·10, clamps it, recomputes SOH and sets the latch. |
| `BmsAlgo.UpdateRestPeriod` | bms_algo.c:246-276 | The rest block restarts the timer at the start of a rest period, then advances it. It corrects once the timer reaches 5 s with no correction yet. A non-rest tick clears the timer and the latch. |
| `BmsAlgo.ApplyCorrections` | bms_algo.c:233-278 | Kalman step, then rest block, then update count, in the C order. |
| `BmsAlgo.Update` | bms_algo.c:220-279 | `BMS_Update` leaves the record equal to `Step` of the old one for this tick, ignoring dt ≤ 0, and keeps the invariant. |
| `BmsAlgoProperties.GetCurrentRecoversSensedCurrent` | bms_algo.c:140-150 | When both channels sense the same current, the selection returns that current, in or out of channel 1's range. |
| `BmsAlgoProperties.StepPreservesInvariant` | bms_algo.c:220-279 | An update keeps the invariant. |
| `BmsAlgoProperties.StepFusesReadings` | bms_algo.c:233-244 | After an update the SOC lies between the clamped counted SOC and the OCV SOC clamped to [0, 100]. The gain is in [0, 1). The covariance is non-negative and at most the predicted one. |
| `BmsAlgoProperties.StepIntegratesCharge` | bms_algo.c:223-224 | An update adds the tick's charge to the counter: positive current raises it, negative current lowers it. |
| `BmsAlgoProperties.StepAdvancesRestMonitor` | bms_algo.c:221-276 | The rest fields after any call follow the rest monitor alone. A correction is counted exactly when the monitor fires, and an update exactly when dt > 0. Capacity and SOH change only on a correction. |
| `BmsAlgoProperties.StepAdvancesRestMonitorOnReading` | bms_algo.c:246-276 | The same on an accepted tick, for any OCV reading. |
| `BmsAlgoProperties.StepAdaptsCapacity` | bms_algo.c:253-270 | On a correction the capacity takes one adaptation step for the tick's SOC error. SOH follows it and the latch is set. |
| `BmsAlgoProperties.AdaptedCapacityFollowsError` | bms_algo.c:256-266 | An adaptation moves capacity toward the OCV reading, by at most the unclamped step, and keeps it within [0.5, 1.2]·nominal. |
| `BmsAlgoProperties.NonRestTickEndsRestPeriod` | bms_algo.c:272-276 | A non-rest tick clears the rest monitor and never corrects. |
| `BmsAlgoProperties.RunPreservesInvariant` | bms_algo.c:194-279 | Every state reachable from an initialised one satisfies the invariant. |
| `BmsAlgoProperties.RunKeepsSocInRange` | bms_algo.c:243-244 | Once one tick has been accepted, the SOC stays a percentage. |
| `BmsAlgoProperties.Uint32AddWraps` | bms_algo.c:254-278 | Incrementing a uint32_t counter k times adds k modulo 2^32. |
| `BmsAlgoProperties.RunFollowsRestMonitor` | bms_algo.c:246-276 | Over any ticks, the rest fields evolve as the rest monitor alone. |
| `BmsAlgoProperties.RunCountsCorrections` | bms_algo.c:254 | `soh_update_count` advances, modulo 2^32, once per correction. |
| `BmsAlgoProperties.RunCountsUpdates` | bms_algo.c:221-278 | `update_count` advances, modulo 2^32, once per accepted tick. |
| `BmsAlgoProperties.RunIntegratesCharge` | bms_algo.c:223-224 | The counter after a run is the initial count plus the charges of the accepted ticks. |
| `BmsAlgoProperties.RunWithoutRestKeepsCapacity` | bms_algo.c:246-276 | Without a rest tick, capacity and SOH never change. |
| `BmsAlgoProperties.AtMostOneCorrectionPerRestPeriod` | bms_algo.c:253-270 | Within one rest period there is at most one correction, none if the latch is already set. The latch records whether one happened. |
| `BmsAlgoProperties.RestRunFromIdle` | bms_algo.c:246-253 | From outside a rest period, over rest ticks, the timer is the elapsed time. The latch is set once that reaches 5 s. |
| `BmsAlgoProperties.FiresWhenRestTimeReached` | bms_algo.c:253 | Over rest ticks from idle, a tick corrects exactly when the elapsed time is below 5 s before it and at least 5 s after it. |
| `BmsAlgoProperties.FiringsOfPrefix` | bms_algo.c:254 | The number of corrections never decreases as ticks are added. |
| `BmsAlgoProperties.RepeatedSums` | bms_algo.c:223-251 | n identical ticks last n·dt and add n times one tick's charge. |
| `BmsAlgoProperties.TenSecondsAtRestAdaptOnce` | bms_algo.c:246-270 | Ten 1-s ticks at 50 mA after `BMS_Init` give exactly one correction, on the fifth tick. |
| `BmsAlgoProperties.HourAtFiveAmpsAddsFivePercent` | bms_algo.c:223-226 | An hour at 5 A in 0.1-s ticks on a 100 Ah battery at 50 % adds 1.8·10^10 µA·s and leaves capacity alone. The counted SOC becomes 55 %. |
| `BmsAlgoProperties.AgreeingReadingKeepsSoc` | bms_algo.c:233-244 | Right after `BMS_Init` at 50.91 %, a zero-current tick at a voltage whose lookup reads 50.91 % leaves the SOC there and lowers the covariance. |
| `BmsAlgoBackup.GetCurrent` | bms_algo_backup.c:289-302 | The earlier current selection returns the same current as the live one for every pair of readings. |
| `BmsAlgoBackup.LerpOrderCommutes` | bms_algo_backup.c:332-337 | Interpolating x first and then y gives the same value as y first and then x. |
| `BmsAlgoBackup.InterpolatedMatchesLive` | bms_algo_backup.c:305-338 | On a cell with no zero-width side, the earlier interpolation equals the live one. With no guard, a zero-width side gives no finite value. |
| `BmsAlgoBackup.InterpolatedOnIncreasingAxes` | bms_algo_backup.c:305-338 | On strictly increasing axes the earlier interpolation is finite and equals the live one. |
| `BmsAlgoBackup.BilinearInterpolate` | bms_algo_backup.c:305-338 | The C routine, with no zero-width guard, returns `Interpolated`: x first, then y. |
| `BmsAlgoBackup.RoundToFiveDecimalsIncreases` | bms_algo_backup.c:7-52 | Rounding to five decimals keeps values at least 10^-5 apart in order. |
| `BmsAlgoBackup.VLookupAxisIncreases` | bms_algo_backup.c:7-52 | The 440-sample voltage axis strictly increases, and so do its first 100 samples. |
| `BmsAlgoBackup.InternalResistance` | bms_algo_backup.c:347-350 | The earlier resistance lookup, over the same table and axes, equals the live one. |
| `BmsAlgoBackup.GetOcvSoc` | bms_algo_backup.c:341-344 | The OCV lookup interpolates the 440×7 SOC table as if it had 100 rows. |
| `BmsAlgoBackup.GetInternalResistance` | bms_algo_backup.c:347-350 | The resistance lookup equals the live one. |
| `BmsAlgoBackup.Initial` | bms_algo_backup.c:353-381 | The earlier `BMS_Init` writes the live initial state, except covariance 1.0 and a correction flag left as it was. It satisfies the earlier invariant for a positive nominal capacity. |
| `BmsAlgoBackup.DischargeStage` | bms_algo_backup.c:389-390 | Subtracting the tick's charge keeps the state well formed. |
| `BmsAlgoBackup.AccumulateStage` | bms_algo_backup.c:433-451 | The capacity half of the correction keeps the state well formed. |
| `BmsAlgoBackup.ResyncStage` | bms_algo_backup.c:454-458 | The resynchronisation keeps the state well formed. |
| `BmsAlgoBackup.StepKeepsInvariant` | bms_algo_backup.c:384-467 | An earlier update keeps its invariant: well formed, empty accumulator, no timer outside a rest period. |
| `BmsAlgoBackup.Init` | bms_algo_backup.c:353-381 | The earlier `BMS_Init` leaves the record equal to `Initial` with the old correction flag. |
| `BmsAlgoBackup.IntegrateCharge` | bms_algo_backup.c:389-397 | The counter loses the tick's charge. The returned SOC is the clamped SOC that the new count stands for. |
| `BmsAlgoBackup.AdaptCapacity` | bms_algo_backup.c:433-451 | The correction counts itself, adds error·rate to the accumulator, moves capacity by accumulator·nominal/100, clamps it and recomputes SOH. |
| `BmsAlgoBackup.ResyncToOcv` | bms_algo_backup.c:454-458 | The SOC becomes the OCV reading, the counter is rederived from it and the capacity, and the accumulator is emptied. |
| `BmsAlgoBackup.UpdateRestPeriod` | bms_algo_backup.c:424-463 | The rest block advances the timer and applies the correction on every rest tick with the timer at 5 s or more. There is no latch. |
| `BmsAlgoBackup.ApplyCorrections` | bms_algo_backup.c:402-466 | Kalman step, then rest block, then update count. |
| `BmsAlgoBackup.Update` | bms_algo_backup.c:384-467 | The earlier `BMS_Update` leaves the record equal to its `Step` of the old one and keeps its invariant. |
| `BmsAlgoBackupProperties.ZeroWidthCellIsNonFinite` | bms_algo_backup.c:332-337 | On a zero-width cell the earlier interpolation gives no finite value. The live one returns the corner, 3. |
| `BmsAlgoBackupProperties.SocTableEntryIsRow` | bms_algo_backup.c:61-262 | Every entry of the first 100 rows of the SOC table is its row number. |
| `BmsAlgoBackupProperties.InterpolatedOnEqualColumns` | bms_algo_backup.c:305-338 | On a cell whose two columns agree, the interpolation is plain linear interpolation along x. |
| `BmsAlgoBackupProperties.OcvSocIsRowLerp` | bms_algo_backup.c:341-344 | The OCV SOC is linear in the voltage, between the selected row's number and the next. |
| `BmsAlgoBackupProperties.OcvSocIgnoresTemperature` | bms_algo_backup.c:341-344 | Temperature has no effect on the OCV SOC. |
| `BmsAlgoBackupProperties.OcvSocAtSample` | bms_algo_backup.c:341-344 | At the k-th of the first 100 voltage samples the OCV SOC is k %. |
| `BmsAlgoBackupProperties.OcvSocWithinRows` | bms_algo_backup.c:341-344 | Between the first and the hundredth voltage sample the OCV SOC lies in [0, 99] %. |
| `BmsAlgoBackupProperties.OcvSocBelowAxisIsNegative` | bms_algo_backup.c:341-344 | 12.0 V, below the axis, reads as a negative SOC. |
| `BmsAlgoBackupProperties.OcvSocAtTopOfAxisExceedsFull` | bms_algo_backup.c:341-344 | The last of the 440 voltage samples lies beyond the 100 the lookup is given. It reads as well over 100 %. |
| `BmsAlgoBackupProperties.InitialDiffersFromLive` | bms_algo_backup.c:353-381 | The earlier initial state differs from the live one only in covariance (1.0 against 0.1) and in the correction flag, which it leaves as it was. |
| `BmsAlgoBackupProperties.StepWithoutRest` | bms_algo_backup.c:389-462 | A non-rest tick subtracts its charge from the counter, against the current's sign. It ends the rest period and leaves capacity, SOH and the correction count alone. |
| `BmsAlgoBackupProperties.StepAtRest` | bms_algo_backup.c:424-455 | A rest tick advances the timer. Each time the timer is at 5 s or more, it counts a correction and resets the SOC to the OCV reading. |
| `BmsAlgoBackupProperties.CorrectedCapacityIsTenthOfLiveStep` | bms_algo_backup.c:436-448 | On an empty accumulator a correction moves capacity a tenth as far as the live adaptation does. |
| `BmsAlgoBackupProperties.AdaptStageCorrects` | bms_algo_backup.c:433-458 | On an empty accumulator the correction moves capacity by error·rate·nominal/100 and clamps it. SOH follows. The SOC becomes the OCV reading, the counter is rederived, and the accumulator is empty again. |
| `BmsAlgoBackupProperties.StepCorrects` | bms_algo_backup.c:393-458 | A correcting tick uses the OCV SOC minus the clamped counted SOC as its error and resynchronises the SOC and the counter to the OCV reading. |
| `BmsAlgoBackupProperties.ResyncedCountReadsBack` | bms_algo_backup.c:455 | The resynchronised counter reads back as the SOC it came from, to within one count's worth. |
| `BmsAlgoBackupProperties.CorrectionCanLeaveSocOutOfRange` | bms_algo_backup.c:400-455 | A correction fed a below-axis voltage leaves a negative SOC, because the resynchronised SOC is not clamped. |
| `BmsAlgoBackupProperties.RunKeepsInvariant` | bms_algo_backup.c:353-467 | Every state reachable from an initialised one satisfies the earlier invariant. |
| `BmsAlgoBackupProperties.RunWithoutRestSubtractsCharge` | bms_algo_backup.c:389-462 | Without a rest tick the counter loses the accepted ticks' charge, and capacity and SOH never change. |
| `BmsAlgoBackupProperties.RunAtRestFromIdle` | bms_algo_backup.c:424-433 | Over rest ticks from idle, the timer is the elapsed time. A correction is counted on every tick that ends at 5 s or later. |
| `BmsAlgoBackupProperties.TimesReachedOfOneSecondTicks` | bms_algo_backup.c:429-431 | With 1-s ticks, every tick from the fifth on reaches the rest time. |
| `BmsAlgoBackupProperties.TenSecondsAtRestAdaptSixTimes` | bms_algo_backup.c:424-458 | Ten 1-s ticks at 50 mA after `BMS_Init` give six corrections, where the live code gives one. The SOC ends at the OCV reading. |
| `BmsAlgoBackupProperties.HourAtFiveAmpsRemovesFivePercent` | bms_algo_backup.c:389-393 | An hour at 5 A from 50 % of 100 Ah removes 1.8·10^10 µA·s. The counted SOC falls to 45 %, where the live code's rises to 55 %. |

## Left out

- `simulator.py`, the test driver, is not part of this model.
- Floating point: every `float` is a real. Rounding, overflow to infinity and NaN propagation are not modelled. The one place where the code divides by zero, the earlier interpolation on a zero-width cell, gives a non-finite value and is modelled as `NonFinite`, without telling infinity from NaN.
- The `int64_t` counter: a result outside its range is undefined behaviour in C. Init, IntegrateCharge, ResyncToOcv and the update methods therefore require their results in range. No wrap-around is modelled.
- Null `state` pointers: `BMS_Init` and `BMS_Update` return at once for `NULL`. A Dafny `State` reference is never null, so that branch does not exist in the model.
- `last_update_time_us` and the EKF fields (`use_ekf`, `ekf_x`, `ekf_P`, `ekf_Q`, `ekf_R`, `r0_ohm`, `r1_ohm`, `tau_rc`): no modelled routine reads them. They are not in `Snapshot`, and `BMS_Init`'s zeroing of `last_update_time_us` is not modelled.
- `BMS_GetInternalResistance` is modelled and its lookup is proved correct at a calibrated point. No estimator step calls it, so no estimator property depends on it.
- The lookups do not clamp out-of-range inputs, and the model keeps it that way. Only the bounds stated above are proved for inputs outside the axes.
- Convergence of the Kalman blend or of the capacity adaptation over long runs is not stated. Only the per-step facts (between, toward, clamped) are proved.
- `BmsAlgoBackup.StepKeepsInvariant` does not promise the SOC stays in [0, 100]: after a correction the backup code sets the SOC to the unclamped OCV reading.
- Facts about the code that the model keeps as written:
  - The two files use opposite sign conventions. `bms_algo.c:223-224` adds positive current to the counter. `bms_algo_backup.c:388-390` subtracts it, and its comment calls positive current discharge. `simulator.py:816` drives the live code with positive current as charge.
  - `bms_algo.c:272-276` clears `correction_has_been_applied` only when a rest period ends, never when one starts (`bms_algo.c:247-250`). The invariant (no latch outside a rest period) shows that a rest period nevertheless always starts with the latch clear.
  - The earlier `BMS_Init` (`bms_algo_backup.c:353-381`) never writes `correction_has_been_applied`. The model leaves the field as it was.
  - SOH is never clamped itself. It follows the capacity, which `bms_algo.c:259-264` clamps to [0.5, 1.2]·nominal, so SOH stays within [50, 120] %.
