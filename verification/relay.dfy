/**
  The relay protection output. The relay is wired so that ENERGIZING it
  opens the circuit: `SetRelayState(true)` disconnects the output from the
  load and `SetRelayState(false)` connects it. The run loop's flag
  `connected` carries the same inverted meaning.
 */
module Relay {
  import opened Hardware

  /** Drives the button LED and the relay to `state`; switching the relay on
      first zeroes the low-side current sensor. */
  function SetRelayState(state: bool): (effects: seq<Effect>)
    ensures forall e <- effects :: e == AutoZero || e == LedWrite(LevelOf(state)) || e == RelayWrite(LevelOf(state))
  {
    if state then
      [AutoZero, LedWrite(High), RelayWrite(High)]
    else
      [LedWrite(Low), RelayWrite(Low)]
  }

  /** Both outputs end at the requested level, each written exactly once, and the
      sensor is zeroed exactly when the relay is switched on, before anything else. */
  lemma RelayStateEffects(state: bool)
    ensures var effects := SetRelayState(state);
      && multiset(effects)[AutoZero] == (if state then 1 else 0)
      && (state ==> effects[0] == AutoZero)
      && multiset(effects)[LedWrite(LevelOf(state))] == 1
      && multiset(effects)[RelayWrite(LevelOf(state))] == 1
      && (forall level :: PinAfter(level, RelayPin, effects) == LevelOf(state))
      && (forall level :: PinAfter(level, LedPin, effects) == LevelOf(state))
  {
  }
}
