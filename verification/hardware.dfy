/**
  The hardware boundary of the power-supply run loop: the compile-time
  constants of the default build, the logic levels written to output pins,
  and the abstract effects one control cycle has on its peripherals.
 */
module Hardware {

  /** Length of the button suppression window, in calls (ANTIBOUNCE). */
  const Antibounce: int := 10

  /** A cycle gets past the display throttle once `refresh` has been counted up to this value. */
  const RefreshPeriod: int := 15

  /** Initial value of the static `refresh` counter; above the period so that the first cycle gets past the throttle. */
  const InitialRefresh: int := 20

  /** Bus voltages above this many volts cannot be read by either sensor. */
  const OverflowVolts: real := 30.0

  /** An analog reading of the mode pin below this value means current limiting is active. */
  const LimitModeThreshold: int := 400

  /** Shunt and parasitic wire resistance, in milliohms (SHUNT_VALUE, WIRE_RESISTANCE). */
  const ShuntMilliOhms: int := 20
  const WireMilliOhms: int := 100

  /** Polarity applied to the raw current reading (SIGN). */
  const CurrentSign: real := 1.0

  /** Empirical voltage offset added to the high-side reading, in volts. */
  const VoltageOffset: real := 0.040

  /** The two overflow reports, one per sensor. */
  datatype Status = HighSideOverflow | LowSideOverflow

  /** The display status line a report is written to. */
  function StatusLine(st: Status): int {
    match st
    case HighSideOverflow => 1
    case LowSideOverflow => 2
  }

  /** The short error code a report shows. */
  function StatusText(st: Status): string {
    match st
    case HighSideOverflow => "Err HS"
    case LowSideOverflow => "Err LS"
  }

  /** Logic level written to a digital output. */
  datatype Level = Low | High

  function LevelOf(on: bool): Level {
    if on then High else Low
  }

  /** The two digital outputs the run loop drives: the relay and the LED in the button. */
  datatype Pin = RelayPin | LedPin

  /** What one cycle does to the outside world, in program order. */
  datatype Effect =
    | AutoZero                                   // zero the low-side current sensor
    | LedWrite(level: Level)                     // drive the button LED
    | RelayWrite(level: Level)                   // drive the relay coil
    | PollMaxCurrent                             // service the max-current control and read its limit
    | StatusErr(status: Status)                  // StatusText(status) on display line StatusLine(status)
    | ShowVoltage(milliVolts: real)
    | ShowCurrent(milliAmps: real, maxMilliAmps: int, connected: bool)
    | ShowLimit(on: bool)
    | Flush                                      // push the drawn frame to the display

  predicate Drives(e: Effect, pin: Pin) {
    match pin
    case RelayPin => e.RelayWrite?
    case LedPin => e.LedWrite?
  }

  /** Effects that render measured values on the display. */
  predicate IsDisplay(e: Effect) {
    e.ShowVoltage? || e.ShowCurrent? || e.ShowLimit? || e.Flush?
  }

  /** Level of `pin` after `effects`, starting from `level`: the last write to the pin wins. */
  function PinAfter(level: Level, pin: Pin, effects: seq<Effect>): Level
    decreases |effects|
  {
    if effects == [] then level
    else
      var last := effects[|effects| - 1];
      if Drives(last, pin) then last.level else PinAfter(level, pin, effects[..|effects| - 1])
  }

  /** Effects that never write `pin` leave its level alone. */
  lemma {:induction false} PinAfterUntouched(level: Level, pin: Pin, effects: seq<Effect>)
    requires forall e <- effects :: !Drives(e, pin)
    ensures PinAfter(level, pin, effects) == level
    decreases |effects|
  {
    if effects != [] {
      assert effects[|effects| - 1] in effects;
      PinAfterUntouched(level, pin, effects[..|effects| - 1]);
    }
  }

  /** Running two effect traces one after the other is running their concatenation. */
  lemma {:induction false} PinAfterAppend(level: Level, pin: Pin, a: seq<Effect>, b: seq<Effect>)
    ensures PinAfter(level, pin, a + b) == PinAfter(PinAfter(level, pin, a), pin, b)
    decreases |b|
  {
    if b == [] {
      assert a + b == a;
    } else {
      var b' := b[..|b| - 1];
      assert (a + b)[..|a + b| - 1] == a + b';
      assert (a + b)[|a + b| - 1] == b[|b| - 1];
      PinAfterAppend(level, pin, a, b');
    }
  }
}
