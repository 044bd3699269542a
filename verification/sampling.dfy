/**
  The per-sample decisions of the run loop: clamping the current reading,
  the voltage correction, the overflow ceiling and the current-limit-mode
  threshold. Sensor values are real numbers here; the firmware's single
  precision floating point is not modelled bit for bit.
 */
module Sampling {
  import opened Hardware

  /** Current used downstream: a negative reading is noise and becomes zero. */
  function ClampCurrent(milliAmps: real): (r: real)
    ensures r >= 0.0
    ensures milliAmps < 0.0 ==> r == 0.0
    ensures milliAmps >= 0.0 ==> r == milliAmps
  {
    if milliAmps < 0.0 then 0.0 else milliAmps
  }

  /** The current the loop works with for a raw sensor reading: polarity, then clamp. */
  function MeasuredCurrent(rawMilliAmps: real): real {
    ClampCurrent(CurrentSign * rawMilliAmps)
  }

  /** Corrected high-side voltage, in volts: the fixed offset is added and the
      drop across shunt and wiring at the measured current is subtracted. */
  function CompensatedVoltage(volts: real, milliAmps: real): real {
    volts + VoltageOffset - milliAmps * (ShuntMilliOhms + WireMilliOhms) as real / 1000000.0
  }

  /** A bus voltage the sensor cannot have measured. */
  predicate Overflow(volts: real) {
    volts > OverflowVolts
  }

  /** The mode pin is active low: a reading under the threshold means current limiting. */
  predicate LimitModeActive(reading: int) {
    reading < LimitModeThreshold
  }

  /** With the default build's polarity the measured current is the raw reading,
      floored at zero. */
  lemma MeasuredCurrentIsClampedReading(rawMilliAmps: real)
    ensures MeasuredCurrent(rawMilliAmps) >= 0.0
    ensures rawMilliAmps < 0.0 ==> MeasuredCurrent(rawMilliAmps) == 0.0
    ensures rawMilliAmps >= 0.0 ==> MeasuredCurrent(rawMilliAmps) == rawMilliAmps
  {
  }

  /** The correction is the offset at zero current and falls by 120 microvolts per
      milliamp; for example 12.000 V at 500 mA reads as 11.980 V. */
  lemma CompensationIsLinearDrop(volts: real, a: real, b: real)
    ensures CompensatedVoltage(volts, 0.0) == volts + VoltageOffset
    ensures CompensatedVoltage(volts, a) - CompensatedVoltage(volts, b) == (b - a) * 120.0 / 1000000.0
    ensures a <= b ==> CompensatedVoltage(volts, b) <= CompensatedVoltage(volts, a)
    ensures CompensatedVoltage(12.0, 500.0) == 11.980
  {
  }
}
