# Single-zone thermostat control loop, modelled in Dafny

This project models the control core of a microcontroller thermostat (`src/main.c`).
Each loop iteration does the following:

- It stores a temperature sample in a 100-slot ring buffer.
- It averages the buffer, skipping slots that still hold the 0.0 sentinel.
- It records the average, the change from the previous average, and the distance to the 35 °C target in three 10-slot ring buffers.
- It runs a four-mode hysteresis state machine: unknown, heating, holding, cooling. The machine sets the power setting and self-tunes the hold power in steps of 0.1. A cooldown gates the downward step.
- It switches the heater on for the leading part of a window of control cycles, in proportion to the power setting.

Files and modules:

- `RingBuffer.dfy`, module `RingBuffers`. The class `RingBuffer` is an array, a write cursor and a ghost history of inserted values. `Fill` gives the slot contents after a sequence of inserts into a zero-filled buffer. Lemmas cover warm-up (the inserted values, then zeros) and wrap-around (reading from the cursor gives the last N values, oldest first).
- `Averaging.dfy`, module `Averaging`. `NonZero` keeps the readings and drops the sentinels. `Sum` and `Mean` are defined on the result. Lemmas cover membership, concatenation, zero-filled slots, bounds on the mean, and the three-sample example (10, 20, 30 average to 20).
- `Hysteresis.dfy`, module `Hysteresis`. The `Mode` datatype replaces the source's string compares. `Transition` is the transition table written per mode. `Tick` is the countdown decrement. `Iterate` is one iteration of both, and `Run` folds `Iterate` over a sequence of deltas. Lemmas cover:
  - every transition, including the (mode, delta) pairs that fall through;
  - the invariant linking mode and power;
  - hold power moving only in whole 0.1 steps;
  - the spacing of downward corrections;
  - the cold-boot scenario.
- `DutyCycle.dfy`, module `DutyCycle`. It holds the heater test, the 0..100 control-cycle counter and the on-count per window.
- `Thermostat.dfy`, module `Thermostat`. The class `Controller` holds the firmware's globals. It has one method per buffer-update function and `CalculateAverageTemp`, a loop proved against `Mean`. `ControlLogic` is the source's ordered if/else chain, proved equal to `Transition`. `HeaterDecision` and `ResetCounters` come next. `Step` is one loop iteration: it takes the sample as a parameter and returns the heater decision.

The model keeps these details of the code exactly:

- From unknown, the test for holding is strict on both sides. So a target delta of exactly +0.5 or -0.5 matches no rule, and the controller stays unknown.
- `control_cycle` starts at 1 and is reset to 0 only once it equals 100. It therefore takes 101 values, so the duty-cycle window is 101 iterations long, not 100. At power k/100 the heater is on for cycles 0 .. k-1.
- `src/main.c` only writes the two trend buffers and never reads them. There is no fixed-slot lookback to model.
- The target-delta buffer's cursor wraps modulo `TEMP_DELTA_BUFFER_SIZE`, not `TEMP_TARGET_DELTA_BUFFER_SIZE`. Both are 10, so the two are the same.

## Model

| member | source | states |
|---|---|---|
| RingBuffers.RingBuffer.constructor | src/main.c:28-38 | A buffer starts zero-filled with the cursor at slot 0 and no inserts. |
| RingBuffers.RingBuffer.Insert | src/main.c:64-94 | Insert writes the value at the old cursor and leaves every other slot alone. The cursor becomes (old + 1) mod N. The history grows by the value. `Valid` keeps the cursor in [0, N) and equal to the insert count mod N. |
| RingBuffers.FillRecent | src/main.c:67-69 | Each of the last N inserted values sits in the slot its insert position maps to modulo N. |
| RingBuffers.FillUnwritten | src/main.c:28-29 | A slot at or beyond the insert count (while it is below N) still holds the 0.0 sentinel. |
| RingBuffers.FillWarmUp | src/main.c:64-70 | After k <= N inserts from zero, the buffer is the k inserted values followed by N - k zeros. |
| RingBuffers.FillLastN | src/main.c:64-70 | After k >= N inserts from zero, reading N slots from the cursor k mod N gives exactly the last N inserted values, oldest first. |
| Thermostat.Controller.UpdateTempBuffer | src/main.c:64-70 | The raw buffer gets the sample at its old cursor and the cursor advances mod 100. Only the raw buffer may change. |
| Thermostat.Controller.UpdateAverageTempBuffer | src/main.c:72-78 | The average buffer gets the value at its old cursor and the cursor advances mod 10. Only that buffer may change. |
| Thermostat.Controller.UpdateTempDeltaBuffer | src/main.c:80-86 | The sample-delta buffer gets the value at its old cursor and the cursor advances mod 10. Only that buffer may change. |
| Thermostat.Controller.UpdateTargetTempDeltaBuffer | src/main.c:88-94 | The target-delta buffer gets the value at its old cursor and the cursor advances mod 10 (the sample-delta size). Only that buffer may change. |
| Thermostat.Controller.CalculateAverageTemp | src/main.c:96-110 | The loop's result is the sum of the non-zero slots divided by their number (`Mean`). It needs at least one non-zero slot. |
| Averaging.NonZeroMembers | src/main.c:101-107 | A value is counted exactly when some slot holds it and it is not 0.0. |
| Averaging.NonZeroSnoc | src/main.c:103-107 | One more slot adds one reading if it is non-zero and nothing if it is 0.0. This is the loop's step. |
| Averaging.NonZeroConcat | src/main.c:101-108 | Dropping sentinels distributes over concatenation of slot ranges. |
| Averaging.NonZeroOfZeros | src/main.c:103 | Zero-filled slots contribute to neither the sum nor the count. |
| Averaging.MeanBounds | src/main.c:96-110 | The average lies between the smallest and the largest non-zero reading. |
| Averaging.ReadingPresent | src/main.c:131-133 | Once a non-zero sample is stored, the average has at least one reading, so the division is defined. |
| Averaging.ThreeSampleMean | src/main.c:96-110 | Samples 10, 20, 30 in a fresh 100-slot buffer have exactly three readings, and their mean is 20. |
| Averaging.SingleReading | src/main.c:96-110 | A single non-zero sample in an otherwise zero-filled buffer is the only reading, and the mean equals it. |
| Thermostat.Controller.Aggregate | src/main.c:129-143 | The raw buffer gets the sample and the new average is the mean of the raw buffer. The average, (average - previous average) and (35 - average) are appended to their buffers. The last average becomes the new average. |
| Hysteresis.Transition | src/main.c:147-205 | If the mode is unchanged, nothing changes. Hold power changes only when leaving Holding, and only by one 0.1 step. The cooldown is only re-armed (to 10) from 0. |
| Hysteresis.UnknownTransitions | src/main.c:147-166 | From unknown: delta < -0.5 gives cooling at power 0, delta > 0.5 gives heating at the correction power, and -0.5 < delta < 0.5 gives holding at the hold power. Each holds if and only if its condition holds. It stays unknown exactly at delta = +-0.5. |
| Hysteresis.ModeKept | src/main.c:147-205 | A state is left unchanged exactly in the fall-through cases: unknown at delta = +-0.5, heating at delta >= 0.5, holding at -0.5 <= delta <= 0.5, cooling at delta <= -0.5. |
| Hysteresis.ReturnToHolding | src/main.c:168-201 | Heating with delta < 0.5, or cooling with delta > -0.5, goes to holding at the current hold power. Nothing else changes. |
| Hysteresis.HoldingExits | src/main.c:175-194 | Holding with delta < -0.5 gives cooling at power 0. If the countdown is 0, hold power drops by 0.1 and the countdown becomes 10; otherwise both are unchanged. Holding with delta > 0.5 gives heating at the correction power, and hold power always rises by 0.1. |
| Hysteresis.Tick | src/main.c:245-248 | The countdown decreases by 1 while positive and is unchanged otherwise. Nothing else changes. |
| Hysteresis.ConsistentPower | src/main.c:21-23 | Under the mode invariant, power_setting is 0.5, 0, the correction power or the current hold power. |
| Hysteresis.IterateConsistent | src/main.c:147-248 | One iteration keeps the mode invariant: unknown is at the boot values, heating at the correction power, holding at the hold power, cooling at 0, and the countdown in [0, 10]. |
| Hysteresis.RunConsistent | src/main.c:124-248 | Any number of iterations keeps the mode invariant. |
| Hysteresis.HoldAdjust | src/main.c:179-193 | One iteration changes hold power by k * 0.1 with k in {-1, 0, 1}. |
| Hysteresis.RunHoldPower | src/main.c:181-192 | Over any run, hold power changes by an integer multiple of 0.1, at most one step per iteration. From boot, hold power - 0.5 is always a multiple of 0.1. |
| Hysteresis.CooldownBlocksLowering | src/main.c:179-183 | While a countdown of c is pending, the next c iterations never lower hold power, and the countdown falls by one per iteration. |
| Hysteresis.DownwardCorrectionsSpaced | src/main.c:179-248 | After a downward hold-power correction, none of the next 9 iterations lowers hold power (each one leaves it at least where it was), so two downward corrections are at least 10 iterations apart. Hold power at the end of those iterations is at least its value right after the correction. |
| Hysteresis.ColdBootScenario | src/main.c:147-205 | From boot, target deltas 15, 0.4, -0.6, -0.1 give the mode sequence unknown, heating, holding, cooling, holding. The hold power ends at 0.4 with power 0.4. |
| DutyCycle.HeaterOn | src/main.c:216-231 | The heater is on if and only if power != 0 and control_cycle / 100 < power. |
| Thermostat.Controller.HeaterDecision | src/main.c:216-231 | The returned decision is on exactly when power_setting != 0 and control_cycle / 100 < power_setting. |
| DutyCycle.NextCycle | src/main.c:236-243 | The control cycle goes from 100 to 0 and otherwise increments. It stays in [0, 100], and the new value is (old + 1) mod 101. |
| Thermostat.Controller.ResetCounters | src/main.c:236-248 | The control cycle advances with wrap at 100. The countdown decreases by 1 while positive and is otherwise unchanged. |
| DutyCycle.CycleAfterIsModular | src/main.c:236-243 | After k iterations from c, the control cycle is (c + k) mod 101. |
| DutyCycle.OnCountAtPercent | src/main.c:216-231 | At power k/100 the heater is on in cycles 0 .. k-1 and off from cycle k on. Among cycles 0 .. n-1, min(n, k) are on. |
| DutyCycle.WindowOnCount | src/main.c:216-243 | Over one full window of 101 cycles, power k/100 with k <= 100 gives exactly k on-cycles. A power above 1 gives all 101. |
| Thermostat.Controller.ControlLogic | src/main.c:147-205 | The ordered if/else chain (first match wins, no match changes nothing) equals the table `Transition` on (mode, power, hold power, countdown). The ghost step count follows hold power. |
| Thermostat.Controller.constructor | src/main.c:20-38 | Boot state: unknown mode; power, correction and hold power all 0.5; countdown 0; control cycle 1; previous average 0; all buffers zero-filled and empty. |
| Thermostat.Controller.Step | src/main.c:127-248 | One iteration appends the sample, its average and both deltas to their buffers. The control state becomes `Iterate(old state, correction power, 35 - average)`. The correction power is unchanged. The control cycle advances. The heater decision uses the new power and the old control cycle. `Valid` (buffer distinctness, mode invariant, hold power = 0.5 + k * 0.1, counter ranges) is preserved. |
| Thermostat.ColdBootFirstIteration | src/main.c:129-231 | The first iteration after boot with sample 20.0 has average 20.0. It goes from unknown to heating at power 0.5, turns the heater on at control cycle 1, and leaves the cycle at 2. |

## Left out

- `readTemperature` (ADC configuration, raw read, thermistor conversion with `log`) is hardware I/O and floating-point numerics. The sample is a parameter of `Step`.
- GPIO setup and `gpio_set_level` are hardware output. The heater decision is returned as a `bool`.
- `vTaskDelay` and the endless `while (true)` are RTOS timing. `Step` is one iteration. `Hysteresis.Run` and `DutyCycle.CycleAfter` describe bounded sequences of iterations.
- `printf` telemetry and `roundTo3Places` are output formatting with no control effect.
- IEEE float behaviour is not modelled. Temperatures and powers are `real`, so the 0.1 steps of hold power are exact. `control_cycle` is an `int`, so its float comparison with 100 is exact.
- Thermostat.Controller.CalculateAverageTemp: requires at least one non-zero slot. The source divides 0 by 0 and gets NaN when every slot is 0.0, and the model has no NaN.
- Thermostat.Controller.Step: requires at least one non-zero raw slot after the sample is stored, for the same reason. `Averaging.ReadingPresent` shows that any non-zero sample meets this. The source would instead go on with a NaN average: every comparison is false, so the mode would stay unchanged, and NaN would be written into the buffers.
- The mode is a datatype, not a `char[10]` compared with `strcmp`. The four strings the source writes map one-to-one to the four constructors.
