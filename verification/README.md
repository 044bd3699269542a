# Bench power supply run loop — Dafny model

A model of the supervisory control cycle of an Arduino bench power supply, together with proofs about it. The modelled source is `runLoop.cpp`. It covers:

- the button debouncer (`buttonPressed`);
- the relay and LED driver (`setRelayState`);
- the decision and counter logic of one call of the run function (`myRun`);
- the hand-over from initialization to the loop (`mySetup` ends with `setRelayState(false)`).

Only the default build is modelled. In it the sensors are present and the display is in normal, not calibration, mode.

Each call of `myRun` is the pure function `RunLoop.Step`:

- It takes the state carried between calls: the debounce countdown `bounce`, the relay flag `connected`, and the static display counter `refresh`.
- It takes the readings of that call: the button pin, both bus voltages, the raw current, the max-current control's limit, and the mode-pin reading.
- It returns the next state, whether a press was reported, and whether the call passed the display throttle. A call past the throttle either draws the frame or reports an overflow.
- It also returns the cycle's effects on the peripherals, in program order: poll of the max-current control, auto-zero, LED and relay writes, status errors, displayed values, flush.

A sequence of calls is a run. `RunLoop.IsRun` says that each cycle is a step from the state the previous one left, and `RunLoop.Run` computes the run.

The flag `connected` keeps the firmware's inverted meaning:

- true: the relay is energized (HIGH) and the output is disconnected from the load;
- false: the output is live.

This meaning comes from the variable's comment and the relay driver's comment (`runLoop.cpp` lines 54 and 121-123): a true flag drives the relay HIGH, which disconnects the output. The name alone suggests the opposite; the model follows the code.

Modules:

- `Hardware`: build constants, logic levels, pins, the effect alphabet, and `PinAfter`, the level of a pin after a trace (the last write wins).
- `Relay`: `SetRelayState`.
- `Debounce`: `ButtonPressed`, and `Presses` for successive calls.
- `Sampling`: current clamp, voltage correction, overflow ceiling, limit-mode threshold.
- `RunLoop`: the state, `Setup`, `ComposeDisplay`, `HandleButton`, `Step`, and runs.
- `LoopProperties`: per-cycle and whole-run properties.

## Model

| member | source | states |
|---|---|---|
| Relay.SetRelayState | runLoop.cpp:125-139 | every effect is the sensor auto-zero or a write of the requested level to the LED or to the relay |
| Relay.RelayStateEffects | runLoop.cpp:125-139 | switching on zeroes the sensor exactly once and before anything else; switching off never does; the LED and the relay are each written once, and both end at the requested level whatever they were before |
| Debounce.ButtonPressed | runLoop.cpp:144-159 | a press is reported only from a zero countdown with the pin low, and then re-arms the countdown to 10; a zero countdown with a low pin always reports; otherwise the countdown drops by one or stays at zero; the countdown stays in [0, 10] |
| Debounce.SuppressedIgnoresPin | runLoop.cpp:146-150 | while the countdown is non-zero the pin is not read: both pin values give the same outcome, and no press |
| Debounce.QuietWhileSuppressed | runLoop.cpp:146-150 | starting from countdown n, none of the first n calls reports a press |
| Debounce.PressSpacing | runLoop.cpp:144-159 | any two reported presses are more than 10 calls apart, whatever the pin does |
| Debounce.HeldButtonRetriggers | runLoop.cpp:144-159 | a button held down is reported again every 11 calls once the current countdown has run out, and at no other call |
| Sampling.ClampCurrent | runLoop.cpp:180-181 | the current used downstream is non-negative: a negative reading becomes exactly 0 and any other reading passes through unchanged |
| Sampling.MeasuredCurrentIsClampedReading | runLoop.cpp:177-181 | with the default polarity, the current used downstream is the sensor reading floored at zero |
| Sampling.CompensationIsLinearDrop | runLoop.cpp:233 | the correction adds 40 mV at zero current and subtracts 120 µV per mA (shunt plus wiring), so it falls as the current grows; for example 12 V at 500 mA becomes 11.98 V |
| RunLoop.Setup | runLoop.cpp:116 | the loop starts with the flag false and the countdown zero, and with a refresh counter that lets the first call past the display throttle; initialization leaves the relay and the LED LOW, whatever they were, without an auto-zero |
| RunLoop.ComposeDisplay | runLoop.cpp:203-242 | the part of a cycle past the throttle consists only of status errors and displayed values |
| RunLoop.DisplayReports | runLoop.cpp:203-242 | "Err HS" is reported iff the high-side voltage is above 30 V, and "Err LS" iff the low-side voltage is; the two are independent and each is written at most once; with either, nothing is rendered; without them the frame shows the corrected voltage in mV and no other voltage, the current with the limit and the flag, and the limit-mode flag (on iff the reading is below 400, never the opposite), and is flushed exactly once, as its last effect |
| RunLoop.OverflowStatusLines | runLoop.cpp:205-216 | "Err HS" is written to status line 1 iff the high-side voltage is above 30 V, and "Err LS" to status line 2 iff the low-side voltage is |
| RunLoop.HandleButton | runLoop.cpp:186-190 | the flag flips exactly when the debouncer reports a press; a press drives the relay and LED to the new flag, and no press touches nothing |
| RunLoop.Step | runLoop.cpp:164-200 | the press and the new countdown are the debouncer's; the flag changes iff a press was reported; the call passes the display throttle iff the incremented counter reaches 15; the counter is then reset to 0, and otherwise it is the incremented value |
| RunLoop.Run | runLoop.cpp:164-243 | the computed cycles satisfy `IsRun`: each is one call from the state the previous call left |
| LoopProperties.CyclePollsFirst | runLoop.cpp:183-184 | every cycle, throttled or not, starts by polling the max-current control and polls it nowhere else |
| LoopProperties.CycleAutoZero | runLoop.cpp:186-190 | the auto-zero happens iff a press disconnects the output, and then exactly at position 1, right after the poll |
| LoopProperties.CycleDrivesOutputs | runLoop.cpp:186-190 | after a cycle, the relay and the LED are at the new flag's level if a press was reported, and untouched otherwise; the display part drives neither |
| LoopProperties.SkippedCycleLeavesDisplay | runLoop.cpp:194-199 | a cycle stopped by the throttle neither renders values nor reports errors |
| LoopProperties.CycleOverflow | runLoop.cpp:200-220 | on a cycle past the throttle, the counter is already 0; each sensor over 30 V reports on its own line, independently; any overflow suppresses all rendering; the flag changes only by the press of that same cycle |
| LoopProperties.CycleLimitMode | runLoop.cpp:225-242 | on a cycle past the throttle without overflow, the limit-mode flag shown is whether the mode pin reads below 400, and the cycle flushes exactly once, as its last effect |
| LoopProperties.CycleShowsClampedCurrent | runLoop.cpp:177-236 | a current shown is never negative; it is 0 for a negative reading and the reading otherwise; it is shown with the polled limit and the flag as set after this cycle's button handling |
| LoopProperties.StepKeepsBounds | runLoop.cpp:144-200 | from a countdown in [0, 10] and a non-negative counter, a cycle keeps both in range and leaves the counter below 15 |
| LoopProperties.RunKeepsBounds | runLoop.cpp:144-200 | in every state of a run from such a state, the countdown is in [0, 10] and the counter in [0, 14] |
| LoopProperties.RefreshCadence | runLoop.cpp:170-200 | from a counter of at least 14 (power-up has 20), call i passes the display throttle iff i is a multiple of 15, and leaves the counter at i mod 15 |
| LoopProperties.ThrottleSpacing | runLoop.cpp:194-200 | after a call past the display throttle, the next 14 calls are stopped by it and the 15th passes |
| LoopProperties.PollsEveryCycle | runLoop.cpp:183-199 | over any run, the max-current control is polled exactly once per call |
| LoopProperties.ConnectedParity | runLoop.cpp:186-220 | after any run, the flag differs from its start iff an odd number of presses was reported: nothing else changes it |
| LoopProperties.RunReportsDebouncedPresses | runLoop.cpp:186 | the presses a run reports are those of the debouncer fed with the successive button readings |
| LoopProperties.RunPressSpacing | runLoop.cpp:144-190 | two toggles of the flag in a run are more than 10 calls apart |
| LoopProperties.RunDrivesOutputs | runLoop.cpp:186-190 | if the relay and LED agree with the flag before a run, they agree with it after |
| LoopProperties.OutputsFollowConnected | runLoop.cpp:116-190 | from power-up, after initialization and any number of calls, the relay and the LED are HIGH exactly when the flag is true |
| LoopProperties.RunIsUnique | runLoop.cpp:164-243 | a sequence of cycles satisfying `IsRun` is the one `Run` computes, so run lemmas stated with `IsRun` apply to `Run` |
| LoopProperties.PowerUpRun | runLoop.cpp:170-200 | from power-up, call i passes the display throttle iff i is a multiple of 15, the counters stay in range, and the flag is true iff an odd number of presses was reported |

## Left out

- Pin configuration, the fan's Timer2 PWM registers, `Serial` logging, the `delay` calls and the `XXSTEP` checkpoints of initialization (lines 68, 77-107, 118, 197) are hardware and I/O plumbing with no decision in them. This includes the LED write at line 81: `Setup` only models what initialization hands to the loop.
- The peripheral drivers are effects or inputs:
  - Sensor reads become the fields of `Inputs`.
  - Driver calls become `Effect` values: `AutoZero`, `PollMaxCurrent`, and the display calls `StatusErr`, `ShowVoltage`, `ShowCurrent`, `ShowLimit` and `Flush`.
  - Their own behaviour and their construction (lines 93-115) are not part of this model.
- Sensor reads, `digitalRead` and `analogRead` are not recorded in the effect trace. The mode pin is read only on cycles past the throttle without overflow; the model simply ignores the reading in other cycles.
- The `TESTMODE`, `NO_LOW_SIDE` and `CALIBRATION` build variants are not modelled. Only the default build is.
- Sampling.CompensationIsLinearDrop: this and the displayed voltage use real arithmetic, not the firmware's single-precision floats. Rounding is not modelled.
- RunLoop.Step: the `int` counter `refresh` is unbounded in the model. This makes no difference from any reachable state, because the counter stays in [0, 14] after the first call (`RunKeepsBounds`).
- The serial log messages on a press and on an overflow are not modelled. They are `Serial` output.

## Behaviour worth knowing

- Relay flag: `connected` true means the relay is energized and the output is disconnected (lines 54 and 121-123). The model keeps this inverted meaning.
- Held button: the pin is read again on the first call after every suppression window, so a button held down is reported again every 11 calls (lines 146-156, `Debounce.HeldButtonRetriggers`).
- Press during an overflow: the button is handled at line 186, before the overflow check at line 205 returns. A press in that call therefore still toggles the flag; the overflow itself never does (`LoopProperties.CycleOverflow`).
