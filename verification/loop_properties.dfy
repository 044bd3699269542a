/**
  What the run loop guarantees, cycle by cycle and over any sequence of
  cycles: the relay and LED follow the `connected` flag, the flag flips once
  per reported press, presses are spaced by the debounce window, the display
  throttle lets every fifteenth call through, and overflow or a negative current
  reading is handled as the firmware intends.
 */
module LoopProperties {
  import opened Hardware
  import opened Debounce
  import opened Sampling
  import opened RunLoop

  /** Reachable counter values: the debounce countdown inside its window and a
      non-negative refresh counter. */
  predicate Valid(s: LoopState) {
    0 <= s.bounce <= Antibounce && 0 <= s.refresh
  }

  // ---------------------------------------------------------------------
  // One cycle
  // ---------------------------------------------------------------------

  /** The effects of a cycle before the display part: the poll of the
      max-current control and the relay switching of a reported press. */
  function Head(s: LoopState, inp: Inputs): seq<Effect> {
    [PollMaxCurrent] + HandleButton(s.bounce, s.connected, inp.pinLow).effects
  }

  /** The display part of a cycle that got past the throttle. */
  function Display(s: LoopState, inp: Inputs): seq<Effect> {
    ComposeDisplay(inp, MeasuredCurrent(inp.rawMilliAmps), Step(s, inp).state.connected)
  }

  /** A cycle is the head alone, or the head followed by the display. */
  lemma CycleSplits(s: LoopState, inp: Inputs)
    ensures !Step(s, inp).pastThrottle ==> Step(s, inp).effects == Head(s, inp)
    ensures Step(s, inp).pastThrottle ==> Step(s, inp).effects == Head(s, inp) + Display(s, inp)
  {
  }

  /** The head of a cycle neither renders nor reports errors. */
  lemma HeadIsQuiet(s: LoopState, inp: Inputs)
    ensures forall e <- Head(s, inp) :: !IsDisplay(e) && !e.StatusErr?
  {
  }

  /** Every cycle starts by polling the max-current control and polls it only then. */
  lemma CyclePollsFirst(s: LoopState, inp: Inputs)
    ensures var c := Step(s, inp);
      && |c.effects| > 0 && c.effects[0] == PollMaxCurrent
      && forall i :: 0 < i < |c.effects| ==> c.effects[i] != PollMaxCurrent
  {
    CycleSplits(s, inp);
  }

  /** Where the auto-zero can sit in a cycle made of the poll, a button part
      and a display part without one: where the button part has it. */
  lemma AutoZeroOnlyAt(e: seq<Effect>, a: seq<Effect>, b: seq<Effect>, k: int)
    requires e == [PollMaxCurrent] + a + b && AutoZero !in b && (k < 0 || 1 <= k <= |a|)
    requires forall i :: 0 <= i < |a| ==> (a[i] == AutoZero <==> i + 1 == k)
    ensures forall i :: 0 <= i < |e| ==> (e[i] == AutoZero <==> i == k)
  {
    forall i | 0 <= i < |e|
      ensures e[i] == AutoZero <==> i == k
    {
      if 1 + |a| <= i {
        assert e[i] == b[i - 1 - |a|];
      } else if 1 <= i {
        assert e[i] == a[i - 1];
      }
    }
  }

  /** A cycle zeroes the current sensor exactly when a press switches the relay
      on, and then once, right after the poll and before the LED and relay are
      driven. */
  lemma CycleAutoZero(s: LoopState, inp: Inputs)
    ensures var c := Step(s, inp);
      forall i :: 0 <= i < |c.effects| ==>
        (c.effects[i] == AutoZero <==> i == 1 && c.pressed && c.state.connected)
  {
    var c := Step(s, inp);
    var t := HandleButton(s.bounce, s.connected, inp.pinLow);
    var tail := if c.pastThrottle then Display(s, inp) else [];
    assert c.effects == [PollMaxCurrent] + t.effects + tail by {
      CycleSplits(s, inp);
    }
    assert AutoZero !in tail;
    if t.pressed && t.connected {
      assert t.effects == [AutoZero, LedWrite(High), RelayWrite(High)];
      AutoZeroOnlyAt(c.effects, t.effects, tail, 1);
    } else {
      assert AutoZero !in t.effects;
      AutoZeroOnlyAt(c.effects, t.effects, tail, -1);
    }
  }

  /** The button part of a cycle, after the poll, leaves a pin at the new flag's
      level on a press and untouched otherwise. */
  lemma ButtonDrivesOutputs(bounce: int, connected: bool, pinLow: bool, level: Level, pin: Pin)
    ensures var t := HandleButton(bounce, connected, pinLow);
      PinAfter(level, pin, [PollMaxCurrent] + t.effects) == if t.pressed then LevelOf(t.connected) else level
  {
    var t := HandleButton(bounce, connected, pinLow);
    PinAfterAppend(level, pin, [PollMaxCurrent], t.effects);
    assert PinAfter(level, pin, [PollMaxCurrent]) == level by {
      assert [PollMaxCurrent][..0] == [];
    }
  }

  /** Composing the display drives neither the relay nor the LED. */
  lemma DisplayLeavesOutputs(inp: Inputs, milliAmps: real, connected: bool, level: Level, pin: Pin)
    ensures PinAfter(level, pin, ComposeDisplay(inp, milliAmps, connected)) == level
  {
    var d := ComposeDisplay(inp, milliAmps, connected);
    assert forall e <- d :: !Drives(e, pin);
    PinAfterUntouched(level, pin, d);
  }

  /** After a cycle the relay and the LED are at the level of the new flag if a
      press was reported, and untouched otherwise. */
  lemma CycleDrivesOutputs(s: LoopState, inp: Inputs, level: Level, pin: Pin)
    ensures var c := Step(s, inp);
      PinAfter(level, pin, c.effects) == if c.pressed then LevelOf(c.state.connected) else level
  {
    var c := Step(s, inp);
    var t := HandleButton(s.bounce, s.connected, inp.pinLow);
    var head := [PollMaxCurrent] + t.effects;
    ButtonDrivesOutputs(s.bounce, s.connected, inp.pinLow, level, pin);
    if c.pastThrottle {
      var tail := ComposeDisplay(inp, MeasuredCurrent(inp.rawMilliAmps), t.connected);
      assert c.effects == head + tail;
      PinAfterAppend(level, pin, head, tail);
      DisplayLeavesOutputs(inp, MeasuredCurrent(inp.rawMilliAmps), t.connected, PinAfter(level, pin, head), pin);
    } else {
      assert c.effects == head;
    }
  }

  /** A cycle held back by the throttle neither renders values nor reports errors. */
  lemma SkippedCycleLeavesDisplay(s: LoopState, inp: Inputs)
    requires s.refresh + 1 < RefreshPeriod
    ensures var c := Step(s, inp);
      !c.pastThrottle && forall e <- c.effects :: !IsDisplay(e) && !e.StatusErr?
  {
    CycleSplits(s, inp);
    HeadIsQuiet(s, inp);
  }

  /** On a cycle past the throttle, each sensor above the ceiling reports on its own
      status line, independently of the other; any overflow suppresses all
      rendering. The refresh counter is reset and the flag keeps the value the
      button gave it either way. */
  lemma CycleOverflow(s: LoopState, inp: Inputs)
    requires s.refresh + 1 >= RefreshPeriod
    ensures var c := Step(s, inp);
      && c.pastThrottle
      && c.state.refresh == 0
      && (StatusErr(HighSideOverflow) in c.effects <==> inp.highSideVolts > OverflowVolts)
      && (StatusErr(LowSideOverflow) in c.effects <==> inp.lowSideVolts > OverflowVolts)
      && (inp.highSideVolts > OverflowVolts || inp.lowSideVolts > OverflowVolts ==>
            forall e <- c.effects :: !IsDisplay(e))
      && (c.state.connected != s.connected <==> c.pressed)
  {
    var c := Step(s, inp);
    CycleSplits(s, inp);
    HeadIsQuiet(s, inp);
    var h, d := Head(s, inp), Display(s, inp);
    DisplayReports(inp, MeasuredCurrent(inp.rawMilliAmps), c.state.connected);
    assert c.effects == h + d;
    assert StatusErr(HighSideOverflow) !in h;
    assert StatusErr(LowSideOverflow) !in h;
    if inp.highSideVolts > OverflowVolts || inp.lowSideVolts > OverflowVolts {
      assert forall e <- d :: e.StatusErr?;
    }
  }

  /** On a cycle past the throttle without overflow the limit-mode flag shown is
      whether the mode pin reads under the threshold, and the frame is flushed
      once, last. */
  lemma CycleLimitMode(s: LoopState, inp: Inputs)
    requires s.refresh + 1 >= RefreshPeriod
    requires inp.highSideVolts <= OverflowVolts && inp.lowSideVolts <= OverflowVolts
    ensures var c := Step(s, inp);
      && ShowLimit(inp.limitPinReading < LimitModeThreshold) in c.effects
      && ShowLimit(inp.limitPinReading >= LimitModeThreshold) !in c.effects
      && c.effects[|c.effects| - 1] == Flush
      && forall i :: 0 <= i < |c.effects| - 1 ==> c.effects[i] != Flush
  {
    var c := Step(s, inp);
    CycleSplits(s, inp);
    HeadIsQuiet(s, inp);
    var h, d := Head(s, inp), Display(s, inp);
    DisplayReports(inp, MeasuredCurrent(inp.rawMilliAmps), c.state.connected);
    assert c.effects == h + d;
    assert ShowLimit(inp.limitPinReading >= LimitModeThreshold) !in h;
    assert c.effects[|c.effects| - 1] == d[|d| - 1];
    assert forall i :: 0 <= i < |h| ==> c.effects[i] == h[i];
    assert forall i :: |h| <= i < |c.effects| ==> c.effects[i] == d[i - |h|];
  }

  /** The current rendered is never negative: a negative reading shows as zero,
      any other reading as itself; it is shown with the flag after the button. */
  lemma CycleShowsClampedCurrent(s: LoopState, inp: Inputs)
    ensures var c := Step(s, inp);
      forall e <- c.effects :: e.ShowCurrent? ==>
        && e.milliAmps >= 0.0
        && (inp.rawMilliAmps < 0.0 ==> e.milliAmps == 0.0)
        && (inp.rawMilliAmps >= 0.0 ==> e.milliAmps == inp.rawMilliAmps)
        && e.maxMilliAmps == inp.maxMilliAmps
        && e.connected == c.state.connected
  {
    CycleSplits(s, inp);
    HeadIsQuiet(s, inp);
    DisplayReports(inp, MeasuredCurrent(inp.rawMilliAmps), Step(s, inp).state.connected);
    MeasuredCurrentIsClampedReading(inp.rawMilliAmps);
  }

  /** A cycle keeps the counters in range, and afterwards the refresh counter
      is below the period. */
  lemma StepKeepsBounds(s: LoopState, inp: Inputs)
    requires Valid(s)
    ensures Valid(Step(s, inp).state)
    ensures Step(s, inp).state.refresh < RefreshPeriod
  {
  }

  // ---------------------------------------------------------------------
  // Sequences of cycles
  // ---------------------------------------------------------------------

  /** The first `k` cycles of a run are a run of the first `k` inputs. */
  lemma RunPrefix(s: LoopState, ins: seq<Inputs>, rs: seq<Cycle>, k: int)
    requires IsRun(s, ins, rs) && 0 <= k <= |rs|
    ensures IsRun(s, ins[..k], rs[..k])
  {
    forall i | 0 <= i < k
      ensures rs[..k][i] == Step(Before(s, rs[..k], i), ins[..k][i])
    {
      assert Before(s, rs[..k], i) == Before(s, rs, i);
    }
  }

  /** A run without its first cycle is a run from the state that cycle left. */
  lemma RunTail(s: LoopState, ins: seq<Inputs>, rs: seq<Cycle>)
    requires IsRun(s, ins, rs) && 0 < |rs|
    ensures IsRun(rs[0].state, ins[1..], rs[1..])
  {
    forall i | 0 <= i < |rs| - 1
      ensures rs[1..][i] == Step(Before(rs[0].state, rs[1..], i), ins[1..][i])
    {
      assert Before(rs[0].state, rs[1..], i) == Before(s, rs, i + 1);
    }
  }

  lemma {:induction false} BoundsAt(s: LoopState, ins: seq<Inputs>, rs: seq<Cycle>, i: nat)
    requires Valid(s) && IsRun(s, ins, rs) && i < |rs|
    ensures Valid(rs[i].state) && rs[i].state.refresh < RefreshPeriod
    decreases i
  {
    if i > 0 {
      BoundsAt(s, ins, rs, i - 1);
    }
    StepKeepsBounds(Before(s, rs, i), ins[i]);
  }

  /** Every state reached from a valid state has the countdown in [0, 10] and
      the refresh counter in [0, 14]. */
  lemma RunKeepsBounds(s: LoopState, ins: seq<Inputs>, rs: seq<Cycle>)
    requires Valid(s) && IsRun(s, ins, rs)
    ensures forall i :: 0 <= i < |rs| ==>
      0 <= rs[i].state.bounce <= Antibounce && 0 <= rs[i].state.refresh < RefreshPeriod
  {
    forall i | 0 <= i < |rs|
      ensures 0 <= rs[i].state.bounce <= Antibounce && 0 <= rs[i].state.refresh < RefreshPeriod
    {
      BoundsAt(s, ins, rs, i);
    }
  }

  lemma {:induction false} CadenceAt(s: LoopState, ins: seq<Inputs>, rs: seq<Cycle>, i: nat)
    requires s.refresh >= RefreshPeriod - 1 && IsRun(s, ins, rs) && i < |rs|
    ensures rs[i].state.refresh == i % RefreshPeriod
    ensures rs[i].pastThrottle <==> i % RefreshPeriod == 0
    decreases i
  {
    if i > 0 {
      CadenceAt(s, ins, rs, i - 1);
    }
    assert rs[i] == Step(Before(s, rs, i), ins[i]);
  }

  /** From a state whose refresh counter is at least 14, as the power-up state's
      20 is, call `i` (counting from 0) gets past the display throttle exactly when `i` is
      a multiple of 15 and leaves the refresh counter at `i mod 15`: the first
      call gets through, and so does every fifteenth after it, whatever the inputs.
      A call past the throttle draws the frame or reports an overflow. */
  lemma RefreshCadence(s: LoopState, ins: seq<Inputs>, rs: seq<Cycle>)
    requires s.refresh >= RefreshPeriod - 1 && IsRun(s, ins, rs)
    ensures forall i :: 0 <= i < |rs| ==>
      && rs[i].state.refresh == i % RefreshPeriod
      && (rs[i].pastThrottle <==> i % RefreshPeriod == 0)
  {
    forall i | 0 <= i < |rs|
      ensures rs[i].state.refresh == i % RefreshPeriod
      ensures rs[i].pastThrottle <==> i % RefreshPeriod == 0
    {
      CadenceAt(s, ins, rs, i);
    }
  }

  /** Within one period after a multiple of the period, the residue is the offset. */
  lemma OffsetInPeriod(i: int, d: int)
    requires i % RefreshPeriod == 0 && 0 <= d < RefreshPeriod
    ensures (i + d) % RefreshPeriod == d
  {
    var q := i / RefreshPeriod;
    assert i == RefreshPeriod * q;
    assert i + d == RefreshPeriod * q + d;
  }

  /** Consecutive calls past the throttle are separated by exactly 14 skipped calls. */
  lemma ThrottleSpacing(s: LoopState, ins: seq<Inputs>, rs: seq<Cycle>, i: nat)
    requires s.refresh >= RefreshPeriod - 1 && IsRun(s, ins, rs)
    requires i < |rs| && rs[i].pastThrottle
    ensures forall k :: i < k < |rs| && k < i + RefreshPeriod ==> !rs[k].pastThrottle
    ensures i + RefreshPeriod < |rs| ==> rs[i + RefreshPeriod].pastThrottle
  {
    CadenceAt(s, ins, rs, i);
    forall k: nat | i < k < |rs| && k < i + RefreshPeriod
      ensures !rs[k].pastThrottle
    {
      CadenceAt(s, ins, rs, k);
      OffsetInPeriod(i, k - i);
    }
    if i + RefreshPeriod < |rs| {
      CadenceAt(s, ins, rs, i + RefreshPeriod);
      assert i + RefreshPeriod == (i + 1) + (RefreshPeriod - 1);
      OffsetInPeriod(i, 0);
    }
  }

  /** A sequence that starts with the poll and has no other poll holds exactly one. */
  lemma PollCountOne(e: seq<Effect>)
    requires |e| > 0 && e[0] == PollMaxCurrent
    requires forall i :: 0 < i < |e| ==> e[i] != PollMaxCurrent
    ensures multiset(e)[PollMaxCurrent] == 1
  {
    assert e == [e[0]] + e[1..];
    assert PollMaxCurrent !in e[1..];
  }

  /** The max-current control is polled once in every cycle, throttled or not. */
  lemma {:induction false} PollsEveryCycle(s: LoopState, ins: seq<Inputs>, rs: seq<Cycle>)
    requires IsRun(s, ins, rs)
    ensures multiset(Flatten(rs))[PollMaxCurrent] == |rs|
    decreases |rs|
  {
    if rs != [] {
      var m := |rs| - 1;
      RunPrefix(s, ins, rs, m);
      PollsEveryCycle(s, ins[..m], rs[..m]);
      assert multiset(rs[m].effects)[PollMaxCurrent] == 1 by {
        assert rs[m] == Step(Before(s, rs, m), ins[m]);
        CyclePollsFirst(Before(s, rs, m), ins[m]);
        PollCountOne(rs[m].effects);
      }
      assert multiset(Flatten(rs)) == multiset(Flatten(rs[..m])) + multiset(rs[m].effects);
    }
  }

  lemma FlipParity(p: int)
    ensures ((p + 1) % 2 == 1) == !(p % 2 == 1)
  {
  }

  /** The flag is toggled once per reported press and by nothing else: after
      any run it differs from its start exactly when the number of presses is odd. */
  lemma {:induction false} ConnectedParity(s: LoopState, ins: seq<Inputs>, rs: seq<Cycle>)
    requires IsRun(s, ins, rs)
    ensures Final(s, rs).connected == (s.connected != (PressCount(rs) % 2 == 1))
    decreases |rs|
  {
    if rs != [] {
      var m := |rs| - 1;
      RunPrefix(s, ins, rs, m);
      ConnectedParity(s, ins[..m], rs[..m]);
      assert Final(s, rs[..m]) == Before(s, rs, m);
      var p := PressCount(rs[..m]);
      assert PressCount(rs) == p + (if rs[m].pressed then 1 else 0);
      assert rs[m] == Step(Before(s, rs, m), ins[m]);
      assert rs[m].state.connected != Before(s, rs, m).connected <==> rs[m].pressed;
      if rs[m].pressed {
        FlipParity(p);
      }
    }
  }

  /** The presses the loop reports are those of the debouncer fed with the
      button readings of the successive cycles. */
  lemma {:induction false} RunReportsDebouncedPresses(s: LoopState, ins: seq<Inputs>, rs: seq<Cycle>)
    requires IsRun(s, ins, rs)
    ensures PressTrace(rs) == Presses(s.bounce, PinTrace(ins))
    decreases |rs|
  {
    if rs != [] {
      RunTail(s, ins, rs);
      RunReportsDebouncedPresses(rs[0].state, ins[1..], rs[1..]);
      assert rs[0] == Step(Before(s, rs, 0), ins[0]);
      var pins := PinTrace(ins);
      var d := ButtonPressed(s.bounce, pins[0]);
      assert d.pressed == rs[0].pressed && d.bounce == rs[0].state.bounce;
      assert pins[1..] == PinTrace(ins[1..]);
      assert Presses(s.bounce, pins) == [d.pressed] + Presses(d.bounce, pins[1..]);
      assert PressTrace(rs) == [rs[0].pressed] + PressTrace(rs[1..]);
    }
  }

  /** Two presses reported by the loop are at least 11 calls apart, i.e. at
      least 10 cycles without a reported press lie between them. */
  lemma RunPressSpacing(s: LoopState, ins: seq<Inputs>, rs: seq<Cycle>, i: int, j: int)
    requires IsRun(s, ins, rs)
    requires 0 <= i < j < |rs| && rs[i].pressed && rs[j].pressed
    ensures j - i > Antibounce
  {
    RunReportsDebouncedPresses(s, ins, rs);
    assert PressTrace(rs)[i] && PressTrace(rs)[j];
    PressSpacing(s.bounce, PinTrace(ins), i, j);
  }

  /** If the outputs agree with the flag before a run, they agree with it after. */
  lemma {:induction false} RunDrivesOutputs(s: LoopState, ins: seq<Inputs>, rs: seq<Cycle>, pin: Pin)
    requires IsRun(s, ins, rs)
    ensures PinAfter(LevelOf(s.connected), pin, Flatten(rs)) == LevelOf(Final(s, rs).connected)
    decreases |rs|
  {
    if rs != [] {
      var m := |rs| - 1;
      RunPrefix(s, ins, rs, m);
      RunDrivesOutputs(s, ins[..m], rs[..m], pin);
      assert Final(s, rs[..m]) == Before(s, rs, m);
      assert rs[m] == Step(Before(s, rs, m), ins[m]);
      PinAfterAppend(LevelOf(s.connected), pin, Flatten(rs[..m]), rs[m].effects);
      CycleDrivesOutputs(Before(s, rs, m), ins[m], LevelOf(Before(s, rs, m).connected), pin);
    }
  }

  /** From power-up, whatever the relay and LED were before, after
      initialization and any number of cycles both are HIGH exactly when
      `connected` holds, i.e. exactly when the output is disconnected. */
  lemma OutputsFollowConnected(ins: seq<Inputs>, rs: seq<Cycle>, before: Level, pin: Pin)
    requires IsRun(Setup().state, ins, rs)
    ensures PinAfter(before, pin, Setup().effects + Flatten(rs)) == LevelOf(Final(Setup().state, rs).connected)
  {
    PinAfterAppend(before, pin, Setup().effects, Flatten(rs));
    RunDrivesOutputs(Setup().state, ins, rs, pin);
  }

  /** A run is determined by its start and its inputs: it is the one `Run` computes. */
  lemma {:induction false} RunIsUnique(s: LoopState, ins: seq<Inputs>, rs: seq<Cycle>)
    requires IsRun(s, ins, rs)
    ensures rs == Run(s, ins)
    decreases |rs|
  {
    if rs != [] {
      RunTail(s, ins, rs);
      RunIsUnique(rs[0].state, ins[1..], rs[1..]);
      assert rs[0] == Step(Before(s, rs, 0), ins[0]);
      assert rs == [rs[0]] + rs[1..];
    }
  }

  /** From power-up: the first call gets past the display throttle and so does every
      fifteenth call after it, the counters stay in range, and the flag, which
      starts false, is true after the cycles exactly when an odd number of
      presses was reported. */
  lemma PowerUpRun(ins: seq<Inputs>, rs: seq<Cycle>)
    requires IsRun(Setup().state, ins, rs)
    ensures forall i :: 0 <= i < |rs| ==> (rs[i].pastThrottle <==> i % RefreshPeriod == 0)
    ensures forall i :: 0 <= i < |rs| ==>
      0 <= rs[i].state.bounce <= Antibounce && 0 <= rs[i].state.refresh < RefreshPeriod
    ensures Final(Setup().state, rs).connected <==> PressCount(rs) % 2 == 1
  {
    RefreshCadence(Setup().state, ins, rs);
    RunKeepsBounds(Setup().state, ins, rs);
    ConnectedParity(Setup().state, ins, rs);
  }
}
