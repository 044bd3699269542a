/**
  The button debouncer: a countdown `bounce` that turns the active-low
  button input into a stream of reported presses. While the countdown is
  non-zero the pin is not read at all; from zero, a low pin is reported as a
  press and re-arms the countdown.
 */
module Debounce {
  import opened Hardware

  /** Outcome of one call: whether a press is reported, and the new countdown. */
  datatype Debounced = Debounced(pressed: bool, bounce: int)

  /** One call of the debouncer with countdown `bounce`; `pinLow` is what the
      button pin would read (low means pressed). */
  function ButtonPressed(bounce: int, pinLow: bool): (r: Debounced)
    ensures r.pressed ==> bounce == 0 && pinLow && r.bounce == Antibounce
    ensures bounce == 0 && pinLow ==> r.pressed
    ensures !r.pressed ==> r.bounce == (if bounce == 0 then 0 else bounce - 1)
    ensures 0 <= bounce <= Antibounce ==> 0 <= r.bounce <= Antibounce
  {
    if bounce != 0 then
      Debounced(false, bounce - 1)
    else if pinLow then
      Debounced(true, Antibounce)
    else
      Debounced(false, bounce)
  }

  /** While suppressed, the outcome does not depend on the pin: it is not sampled. */
  lemma SuppressedIgnoresPin(bounce: int)
    requires bounce != 0
    ensures ButtonPressed(bounce, true) == ButtonPressed(bounce, false)
    ensures !ButtonPressed(bounce, true).pressed
  {
  }

  /** The presses reported by successive calls, starting from countdown `bounce`,
      for the successive pin readings `pins`. */
  function Presses(bounce: int, pins: seq<bool>): (r: seq<bool>)
    ensures |r| == |pins|
    decreases |pins|
  {
    if pins == [] then []
    else
      var d := ButtonPressed(bounce, pins[0]);
      [d.pressed] + Presses(d.bounce, pins[1..])
  }

  /** No press is reported during the first `bounce` calls. */
  lemma {:induction false} QuietWhileSuppressed(bounce: int, pins: seq<bool>)
    requires bounce >= 0
    ensures forall j :: 0 <= j < |pins| && j < bounce ==> !Presses(bounce, pins)[j]
    decreases |pins|
  {
    if pins != [] && bounce > 0 {
      var d := ButtonPressed(bounce, pins[0]);
      QuietWhileSuppressed(d.bounce, pins[1..]);
      var r := Presses(bounce, pins);
      forall j | 0 < j < |pins| && j < bounce
        ensures !r[j]
      {
        assert r[j] == Presses(d.bounce, pins[1..])[j - 1];
      }
    }
  }

  /** Two reported presses are separated by at least `Antibounce` calls that
      report nothing, whatever the pin does, a held button included. */
  lemma {:induction false} PressSpacing(bounce: int, pins: seq<bool>, i: int, j: int)
    requires 0 <= i < j < |pins|
    requires Presses(bounce, pins)[i] && Presses(bounce, pins)[j]
    ensures j - i > Antibounce
    decreases |pins|
  {
    var d := ButtonPressed(bounce, pins[0]);
    var tail := Presses(d.bounce, pins[1..]);
    assert Presses(bounce, pins) == [d.pressed] + tail;
    if i == 0 {
      assert d.bounce == Antibounce;
      QuietWhileSuppressed(d.bounce, pins[1..]);
      assert tail[j - 1];
    } else {
      PressSpacing(d.bounce, pins[1..], i - 1, j - 1);
    }
  }

  /** Residues modulo the window length are invariant under one window shift. */
  lemma ShiftByWindow(x: int)
    ensures (x + Antibounce + 1) % (Antibounce + 1) == x % (Antibounce + 1)
  {
  }

  /** A button held down through calls `0 .. |pins|-1` is reported again every
      `Antibounce + 1` calls, once the current countdown has run out. */
  lemma {:induction false} HeldButtonRetriggers(bounce: int, pins: seq<bool>)
    requires 0 <= bounce <= Antibounce
    requires forall k :: 0 <= k < |pins| ==> pins[k]
    ensures forall i :: 0 <= i < |pins| ==>
      (Presses(bounce, pins)[i] <==> i >= bounce && (i - bounce) % (Antibounce + 1) == 0)
    decreases |pins|
  {
    if pins != [] {
      var d := ButtonPressed(bounce, pins[0]);
      var tail := Presses(d.bounce, pins[1..]);
      assert Presses(bounce, pins) == [d.pressed] + tail;
      HeldButtonRetriggers(d.bounce, pins[1..]);
      forall i | 0 < i < |pins|
        ensures Presses(bounce, pins)[i] <==> i >= bounce && (i - bounce) % (Antibounce + 1) == 0
      {
        assert Presses(bounce, pins)[i] == tail[i - 1];
        if bounce == 0 {
          ShiftByWindow(i - 1 - Antibounce);
        }
      }
    }
  }
}
