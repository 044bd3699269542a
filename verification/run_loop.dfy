/**
  The control cycle of the power supply. Each call of the firmware's run
  function is one `Step`: it takes the state carried between calls and the
  readings of this call, and yields the next state together with the trace of
  effects on the peripherals, in program order.

  Default build only: sensors present, normal (not calibration) display.
 */
module RunLoop {
  import opened Hardware
  import opened Debounce
  import opened Relay
  import opened Sampling

  /** State carried from one cycle to the next. `connected` keeps the
      firmware's inverted naming: true means the relay is energized and the
      output is DISCONNECTED from the load; false means the output is live. */
  datatype LoopState = LoopState(bounce: int, connected: bool, refresh: int)

  /** What one cycle reads from the hardware. */
  datatype Inputs = Inputs(
    pinLow: bool,          // the button pin reads low (pressed); sampled only when the countdown is zero
    highSideVolts: real,   // bus voltage of the high-side sensor
    lowSideVolts: real,    // bus voltage of the low-side sensor
    rawMilliAmps: real,    // current reported by the low-side sensor
    maxMilliAmps: int,     // limit reported by the max-current control once polled
    limitPinReading: int)  // analog reading of the mode pin; read only past the throttle, without overflow

  /** One completed cycle: the next state, whether a press was reported,
      whether the cycle got past the display throttle (and so drew the frame or
      reported an overflow), and its effects. */
  datatype Cycle = Cycle(state: LoopState, pressed: bool, pastThrottle: bool, effects: seq<Effect>)

  /** The state and the effects with which initialization hands over to the loop. */
  datatype Startup = Startup(state: LoopState, effects: seq<Effect>)

  /** Initial values of the globals and of the run function's static counter. */
  const Boot: LoopState := LoopState(0, false, InitialRefresh)

  /** End of initialization: the relay is forced off, so the output is live and
      no auto-zero happens. */
  function Setup(): (r: Startup)
    ensures !r.state.connected && r.state.bounce == 0
    ensures r.state.refresh >= RefreshPeriod - 1
    ensures AutoZero !in r.effects
    ensures forall level :: PinAfter(level, RelayPin, r.effects) == Low
    ensures forall level :: PinAfter(level, LedPin, r.effects) == Low
  {
    RelayStateEffects(false);
    Startup(Boot, SetRelayState(false))
  }

  /** The part of a cycle past the throttle: overflow reports, or the corrected values,
      the limit-mode flag and a flush. */
  function ComposeDisplay(inp: Inputs, milliAmps: real, connected: bool): (effects: seq<Effect>)
    ensures forall e <- effects :: e.StatusErr? || IsDisplay(e)
  {
    var high := if Overflow(inp.highSideVolts) then [StatusErr(HighSideOverflow)] else [];
    var low := if Overflow(inp.lowSideVolts) then [StatusErr(LowSideOverflow)] else [];
    if high + low != [] then
      high + low
    else
      [ ShowVoltage(CompensatedVoltage(inp.highSideVolts, milliAmps) * 1000.0),
        ShowCurrent(milliAmps, inp.maxMilliAmps, connected),
        ShowLimit(LimitModeActive(inp.limitPinReading)),
        Flush ]
  }

  /** Each sensor above the ceiling reports on its own status line, and any
      overflow replaces the whole frame, each report written once; without
      overflow the frame shows the corrected voltage in millivolts, the current
      with the limit and the flag, the limit-mode flag as read from the mode pin,
      and is flushed once, after everything else. */
  lemma DisplayReports(inp: Inputs, milliAmps: real, connected: bool)
    ensures var effects := ComposeDisplay(inp, milliAmps, connected);
      && (StatusErr(HighSideOverflow) in effects <==> inp.highSideVolts > OverflowVolts)
      && (StatusErr(LowSideOverflow) in effects <==> inp.lowSideVolts > OverflowVolts)
      && (inp.highSideVolts > OverflowVolts || inp.lowSideVolts > OverflowVolts ==>
            && (forall e <- effects :: e.StatusErr?)
            && |effects| == (if inp.highSideVolts > OverflowVolts then 1 else 0)
                            + (if inp.lowSideVolts > OverflowVolts then 1 else 0))
      && (inp.highSideVolts <= OverflowVolts && inp.lowSideVolts <= OverflowVolts ==>
            && (forall e <- effects :: IsDisplay(e))
            && ShowLimit(inp.limitPinReading < LimitModeThreshold) in effects
            && ShowLimit(inp.limitPinReading >= LimitModeThreshold) !in effects
            && ShowVoltage(CompensatedVoltage(inp.highSideVolts, milliAmps) * 1000.0) in effects
            && (forall e <- effects :: e.ShowVoltage? ==>
                  e == ShowVoltage(CompensatedVoltage(inp.highSideVolts, milliAmps) * 1000.0))
            && ShowCurrent(milliAmps, inp.maxMilliAmps, connected) in effects
            && effects[|effects| - 1] == Flush
            && (forall i :: 0 <= i < |effects| - 1 ==> effects[i] != Flush))
      && (forall e <- effects :: e.ShowCurrent? ==> e == ShowCurrent(milliAmps, inp.maxMilliAmps, connected))
  {
  }

  /** The overflow reports as the screen shows them: "Err HS" on status line 1
      exactly when the high-side voltage is above the ceiling, and "Err LS" on
      status line 2 exactly when the low-side voltage is. */
  lemma OverflowStatusLines(inp: Inputs, milliAmps: real, connected: bool)
    ensures var effects := ComposeDisplay(inp, milliAmps, connected);
      && ((exists e <- effects :: e.StatusErr? && StatusLine(e.status) == 1 && StatusText(e.status) == "Err HS")
            <==> inp.highSideVolts > OverflowVolts)
      && ((exists e <- effects :: e.StatusErr? && StatusLine(e.status) == 2 && StatusText(e.status) == "Err LS")
            <==> inp.lowSideVolts > OverflowVolts)
  {
  }

  /** Outcome of the button handling of one cycle. */
  datatype Toggle = Toggle(pressed: bool, bounce: int, connected: bool, effects: seq<Effect>)

  /** Debounce the button and, on a reported press, flip `connected` and drive
      the relay and LED to the new value. */
  function HandleButton(bounce: int, connected: bool, pinLow: bool): (t: Toggle)
    ensures t.pressed == ButtonPressed(bounce, pinLow).pressed
    ensures t.bounce == ButtonPressed(bounce, pinLow).bounce
    ensures t.connected != connected <==> t.pressed
    ensures t.pressed ==> t.effects == SetRelayState(t.connected)
    ensures !t.pressed ==> t.effects == []
  {
    var d := ButtonPressed(bounce, pinLow);
    if d.pressed then
      Toggle(true, d.bounce, !connected, SetRelayState(!connected))
    else
      Toggle(false, d.bounce, connected, [])
  }

  /** One call of the run function. */
  function Step(s: LoopState, inp: Inputs): (c: Cycle)
    ensures c.pressed == ButtonPressed(s.bounce, inp.pinLow).pressed
    ensures c.state.bounce == ButtonPressed(s.bounce, inp.pinLow).bounce
    ensures c.state.connected != s.connected <==> c.pressed
    ensures c.pastThrottle <==> s.refresh + 1 >= RefreshPeriod
    ensures c.pastThrottle ==> c.state.refresh == 0
    ensures !c.pastThrottle ==> c.state.refresh == s.refresh + 1
  {
    var t := HandleButton(s.bounce, s.connected, inp.pinLow);
    var head := [PollMaxCurrent] + t.effects;
    var refresh := s.refresh + 1;
    if refresh < RefreshPeriod then
      Cycle(LoopState(t.bounce, t.connected, refresh), t.pressed, false, head)
    else
      var display := ComposeDisplay(inp, MeasuredCurrent(inp.rawMilliAmps), t.connected);
      Cycle(LoopState(t.bounce, t.connected, 0), t.pressed, true, head + display)
  }

  /** The state a cycle of `rs` starts from: `s` for the first, the state left
      by the previous cycle for the others. */
  function Before(s: LoopState, rs: seq<Cycle>, i: int): LoopState
    requires 0 <= i <= |rs|
  {
    if i == 0 then s else rs[i - 1].state
  }

  /** `rs` is what calling the run function once per element of `ins` produces,
      starting from `s`: each cycle is a step from the state the previous one left. */
  predicate IsRun(s: LoopState, ins: seq<Inputs>, rs: seq<Cycle>) {
    && |rs| == |ins|
    && forall i {:trigger Step(Before(s, rs, i), ins[i])} :: 0 <= i < |rs| ==> rs[i] == Step(Before(s, rs, i), ins[i])
  }

  /** The cycles produced by calling the run function once per element of `ins`,
      starting from `s`. */
  function Run(s: LoopState, ins: seq<Inputs>): (rs: seq<Cycle>)
    ensures IsRun(s, ins, rs)
    decreases |ins|
  {
    if ins == [] then []
    else
      var c := Step(s, ins[0]);
      var rest := Run(c.state, ins[1..]);
      assert forall i :: 0 < i <= |ins| ==> Before(s, [c] + rest, i) == Before(c.state, rest, i - 1);
      [c] + rest
  }

  /** The state after the cycles `rs` that started from `s`. */
  function Final(s: LoopState, rs: seq<Cycle>): LoopState {
    Before(s, rs, |rs|)
  }

  /** All effects of the cycles `rs`, in order. */
  function Flatten(rs: seq<Cycle>): seq<Effect>
    decreases |rs|
  {
    if rs == [] then [] else Flatten(rs[..|rs| - 1]) + rs[|rs| - 1].effects
  }

  /** Number of cycles in `rs` that reported a press. */
  function PressCount(rs: seq<Cycle>): nat
    decreases |rs|
  {
    if rs == [] then 0 else PressCount(rs[..|rs| - 1]) + (if rs[|rs| - 1].pressed then 1 else 0)
  }

  /** The presses reported by the cycles, and the button readings fed to them. */
  function PressTrace(rs: seq<Cycle>): seq<bool> {
    seq(|rs|, i requires 0 <= i < |rs| => rs[i].pressed)
  }

  function PinTrace(ins: seq<Inputs>): seq<bool> {
    seq(|ins|, i requires 0 <= i < |ins| => ins[i].pinLow)
  }
}
