/** The twinkle field as values: the wrapping millisecond timer gate, the
    three-state machine of one pixel, and one firing of the field, which
    advances every pixel that no running shooting star claims. */
module Twinkle {
  import opened Colors
  import opened Stars

  datatype TwinkleState = Off | FadingIn | FadingOut

  /** The twinkle state of one pixel and its signed brightness. */
  datatype Cell = Cell(state: TwinkleState, level: int)

  /** `unsigned long` arithmetic wraps modulo 2^32. */
  const CLOCK_WRAP: int := 0x1_0000_0000

  /** `currentTime - lastTwinkleUpdate` on `unsigned long`. */
  function Elapsed(now: U32, last: U32): (r: U32)
    ensures last <= now ==> r == now - last
    ensures now < last ==> r == now - last + CLOCK_WRAP
  {
    (now - last) % CLOCK_WRAP
  }

  /** The gate measures true elapsed time even when the clock wrapped in
      between, as long as less than 2^32 ms went by: `tLast` and `tNow` are
      the unwrapped times, the controller only sees them modulo 2^32. */
  lemma ElapsedAcrossWrap(tLast: nat, tNow: nat)
    requires tLast <= tNow < tLast + CLOCK_WRAP
    ensures Elapsed(tNow % CLOCK_WRAP, tLast % CLOCK_WRAP) == tNow - tLast
  {
    var a, b := tNow % CLOCK_WRAP, tLast % CLOCK_WRAP;
    var k := tNow / CLOCK_WRAP - tLast / CLOCK_WRAP;
    assert tNow - tLast == (a - b) + k * CLOCK_WRAP;
    if k <= -1 || k >= 2 {
      assert false;
    } else if k == 1 {
      assert a - b == tNow - tLast - CLOCK_WRAP;
    } else {
      assert a - b == tNow - tLast;
    }
  }

  /** The gate of `updateTwinkle`: strictly more than `interval` ms elapsed.
      It never fires at the very millisecond it last fired, and without a
      wraparound it fires exactly when `now - last` exceeds the interval. */
  predicate Fires(now: U32, last: U32, interval: U16): (r: bool)
    ensures r ==> now != last
    ensures last <= now ==> (r <==> now - last > interval)
  {
    Elapsed(now, last) > interval
  }

  /** `random(chance)` draws from [0, chance); Arduino's `random(0)` returns 0. */
  function DrawBound(chance: U16): nat
  {
    if chance == 0 then 1 else chance
  }

  predicate ValidDraws(draws: seq<nat>, chance: U16)
  {
    forall k :: 0 <= k < |draws| ==> draws[k] < DrawBound(chance)
  }

  /** The states follow the cycle OFF -> FADING_IN -> FADING_OUT -> OFF. */
  predicate NextInCycle(a: TwinkleState, b: TwinkleState)
  {
    a == b || (a == Off && b == FadingIn) || (a == FadingIn && b == FadingOut) || (a == FadingOut && b == Off)
  }

  /** One pixel's case of the `switch` in `updateTwinkle`. */
  function Step(c: Cell, draw: nat, maxB: Byte, fade: Byte): (r: Cell)
    ensures NextInCycle(c.state, r.state)
    ensures c.state == Off ==> (r.state == FadingIn <==> draw == 0)
    ensures c.state == Off && r.state == FadingIn ==> r.level == 0
    ensures c.state == FadingIn ==> (r.state == FadingOut <==> c.level + fade >= maxB)
    ensures c.state == FadingOut ==> (r.state == Off <==> c.level <= 0)
    ensures r.state == c.state && c.state != FadingOut ==> c.level <= r.level
    ensures r.state == c.state && c.state != FadingIn ==> r.level <= c.level
    // a non-negative brightness stays non-negative and never rises past the
    // larger of itself and the maximum, so [0, max] is kept
    ensures 0 <= c.level ==> 0 <= r.level && (r.level <= c.level || r.level <= maxB)
  {
    match c.state
    case Off =>
      if draw == 0 then Cell(FadingIn, 0) else c
    case FadingIn =>
      var up := c.level + fade;
      if up >= maxB then Cell(FadingOut, maxB) else Cell(FadingIn, up)
    case FadingOut =>
      if c.level > 0 then
        var down := c.level - fade;
        Cell(FadingOut, if down < 0 then 0 else down)
      else
        Cell(Off, c.level)
  }

  /** The grey pixel `strip.Color(b, b, b)`. */
  function Grey(b: Byte): Rgb
  {
    Rgb(b, b, b)
  }

  /** The state of the whole field and the pixels it writes. */
  datatype Field = Field(states: seq<TwinkleState>, levels: seq<int>, pixels: seq<Rgb>)

  predicate Sized(f: Field, n: nat)
  {
    |f.states| == n && |f.levels| == n && |f.pixels| == n
  }

  /** Every stored brightness fits the `uint8_t` that `strip.Color` takes. */
  predicate LevelsAreBytes(levels: seq<int>)
  {
    forall i :: 0 <= i < |levels| ==> 0 <= levels[i] <= 255
  }

  predicate LevelsAtMost(levels: seq<int>, maxB: int)
  {
    forall i :: 0 <= i < |levels| ==> levels[i] <= maxB
  }

  /** Pixel `i` after a firing: kept if a running star claims it, else stepped. */
  function CellAfter(f: Field, stars: seq<ShootingStar>, draws: seq<nat>, maxB: Byte, fade: Byte, i: nat): (r: Cell)
    requires Sized(f, |draws|) && i < |draws|
  {
    var c := Cell(f.states[i], f.levels[i]);
    if Claimed(stars, i) then c else Step(c, draws[i], maxB, fade)
  }

  /** The loop of `updateTwinkle` once the gate has fired. */
  function TwinklePass(f: Field, stars: seq<ShootingStar>, draws: seq<nat>, maxB: Byte, fade: Byte): (r: Field)
    requires Sized(f, |draws|) && LevelsAreBytes(f.levels)
    ensures Sized(r, |draws|) && LevelsAreBytes(r.levels)
    ensures LevelsAtMost(f.levels, maxB) ==> LevelsAtMost(r.levels, maxB)
    // a pixel claimed by a running star keeps its state, brightness and colour
    ensures forall i :: 0 <= i < |draws| && Claimed(stars, i) ==>
              r.states[i] == f.states[i] && r.levels[i] == f.levels[i] && r.pixels[i] == f.pixels[i]
    // every other pixel takes one step of its state machine and is written grey
    ensures forall i :: 0 <= i < |draws| && !Claimed(stars, i) ==>
              && Cell(r.states[i], r.levels[i]) == Step(Cell(f.states[i], f.levels[i]), draws[i], maxB, fade)
              && r.pixels[i] == Grey(r.levels[i])
  {
    var n := |draws|;
    var states := seq(n, i requires 0 <= i < n => CellAfter(f, stars, draws, maxB, fade, i).state);
    var levels := seq(n, i requires 0 <= i < n => CellAfter(f, stars, draws, maxB, fade, i).level);
    var pixels := seq(n, i requires 0 <= i < n =>
      if Claimed(stars, i) then f.pixels[i] else Grey(CellAfter(f, stars, draws, maxB, fade, i).level));
    Field(states, levels, pixels)
  }

  /** Runs one pixel's state machine over a sequence of draws, one per firing. */
  function Run(c: Cell, draws: seq<nat>, maxB: Byte, fade: Byte): Cell
    decreases |draws|
  {
    if draws == [] then c else Run(Step(c, draws[0], maxB, fade), draws[1..], maxB, fade)
  }

  lemma {:induction false} RunAppend(c: Cell, d1: seq<nat>, d2: seq<nat>, maxB: Byte, fade: Byte)
    ensures Run(c, d1 + d2, maxB, fade) == Run(Run(c, d1, maxB, fade), d2, maxB, fade)
    decreases |d1|
  {
    if d1 != [] {
      assert (d1 + d2)[0] == d1[0];
      assert (d1 + d2)[1..] == d1[1..] + d2;
      RunAppend(Step(c, d1[0], maxB, fade), d1[1..], d2, maxB, fade);
    } else {
      assert d1 + d2 == d2;
    }
  }

  /** A brightness in [0, max] stays in [0, max] however many firings come. */
  lemma {:induction false} RunStaysInRange(c: Cell, draws: seq<nat>, maxB: Byte, fade: Byte)
    requires 0 <= c.level <= maxB
    ensures 0 <= Run(c, draws, maxB, fade).level <= maxB
    decreases |draws|
  {
    if draws != [] {
      RunStaysInRange(Step(c, draws[0], maxB, fade), draws[1..], maxB, fade);
    }
  }

  /** With a fade amount of 0 a pixel fading out from a lit brightness, or
      fading in below the maximum, never moves again. */
  lemma {:induction false} StallsWithoutFade(c: Cell, draws: seq<nat>, maxB: Byte)
    requires (c.state == FadingOut && c.level > 0) || (c.state == FadingIn && c.level < maxB)
    ensures Run(c, draws, maxB, 0) == c
    decreases |draws|
  {
    if draws != [] {
      assert Step(c, draws[0], maxB, 0) == c;
      StallsWithoutFade(c, draws[1..], maxB);
    }
  }

  /** With a chance of 0 or 1 every draw is 0, so every unclaimed OFF pixel
      starts fading in at brightness 0 on each firing. */
  lemma CertainWakeUp(f: Field, stars: seq<ShootingStar>, draws: seq<nat>, maxB: Byte, fade: Byte, chance: U16)
    requires Sized(f, |draws|) && LevelsAreBytes(f.levels)
    requires chance <= 1 && ValidDraws(draws, chance)
    ensures forall i :: 0 <= i < |draws| && !Claimed(stars, i) && f.states[i] == Off ==>
              && TwinklePass(f, stars, draws, maxB, fade).states[i] == FadingIn
              && TwinklePass(f, stars, draws, maxB, fade).levels[i] == 0
  {
  }

  /** Firings a FADING_IN pixel at brightness `level` needs to reach the maximum. */
  function StepsToPeak(level: int, maxB: Byte, fade: Byte): nat
    requires fade > 0
    decreases maxB - level
  {
    if level + fade >= maxB then 1 else 1 + StepsToPeak(level + fade, maxB, fade)
  }

  /** Firings a FADING_OUT pixel at brightness `level` needs to return to OFF. */
  function StepsToOff(level: nat, fade: Byte): nat
    requires fade > 0
    decreases level
  {
    if level > 0 then 1 + StepsToOff(if level - fade < 0 then 0 else level - fade, fade) else 1
  }

  /** With a non-zero fade amount, fading in reaches the maximum and turns to
      fading out, whatever the draws. */
  lemma {:induction false} FadeInReachesPeak(level: int, maxB: Byte, fade: Byte, draws: seq<nat>)
    requires fade > 0
    requires |draws| == StepsToPeak(level, maxB, fade)
    ensures Run(Cell(FadingIn, level), draws, maxB, fade) == Cell(FadingOut, maxB)
    decreases maxB - level
  {
    if level + fade >= maxB {
      assert draws[1..] == [];
    } else {
      FadeInReachesPeak(level + fade, maxB, fade, draws[1..]);
    }
  }

  /** With a non-zero fade amount, fading out reaches brightness 0 and then
      OFF, whatever the draws. */
  lemma {:induction false} FadeOutReachesOff(level: nat, maxB: Byte, fade: Byte, draws: seq<nat>)
    requires fade > 0
    requires |draws| == StepsToOff(level, fade)
    ensures Run(Cell(FadingOut, level), draws, maxB, fade) == Cell(Off, 0)
    decreases level
  {
    if level > 0 {
      var down := if level - fade < 0 then 0 else level - fade;
      FadeOutReachesOff(down, maxB, fade, draws[1..]);
    } else {
      assert draws[1..] == [];
    }
  }

  /** A pixel that a zero draw wakes goes through one whole cycle
      OFF -> FADING_IN -> FADING_OUT -> OFF and ends dark. */
  lemma TwinkleCycle(level: int, maxB: Byte, fade: Byte, draws: seq<nat>)
    requires fade > 0
    requires |draws| == 1 + StepsToPeak(0, maxB, fade) + StepsToOff(maxB, fade)
    requires draws[0] == 0
    ensures Run(Cell(Off, level), draws[..1 + StepsToPeak(0, maxB, fade)], maxB, fade) == Cell(FadingOut, maxB)
    ensures Run(Cell(Off, level), draws, maxB, fade) == Cell(Off, 0)
  {
    var up := draws[1..1 + StepsToPeak(0, maxB, fade)];
    var down := draws[1 + StepsToPeak(0, maxB, fade)..];
    assert draws == [draws[0]] + up + down;
    assert draws[..1 + StepsToPeak(0, maxB, fade)] == [draws[0]] + up;
    RunAppend(Cell(Off, level), [draws[0]] + up, down, maxB, fade);
    RunAppend(Cell(Off, level), [draws[0]], up, maxB, fade);
    assert Run(Cell(Off, level), [draws[0]], maxB, fade) == Cell(FadingIn, 0);
    FadeInReachesPeak(0, maxB, fade, up);
    FadeOutReachesOff(maxB, maxB, fade, down);
  }

  /** With `fadeAmount == maxBrightness` a woken pixel shows brightness 0,
      then the maximum, then 0, and is OFF again. */
  lemma FadeEqualToMaxCycle(level: int, m: Byte, d1: nat, d2: nat, d3: nat)
    requires m > 0
    ensures Step(Cell(Off, level), 0, m, m) == Cell(FadingIn, 0)
    ensures Step(Cell(FadingIn, 0), d1, m, m) == Cell(FadingOut, m)
    ensures Step(Cell(FadingOut, m), d2, m, m) == Cell(FadingOut, 0)
    ensures Step(Cell(FadingOut, 0), d3, m, m) == Cell(Off, 0)
  {
  }

  /** Maximum 100 and fade amount 25: brightness 0, 25, 50, 75, 100 while
      fading in, then 75, 50, 25, 0 while fading out, then OFF. */
  lemma QuarterStepsCycle()
    ensures StepsToPeak(0, 100, 25) == 4
    ensures StepsToOff(100, 25) == 5
    ensures Run(Cell(FadingIn, 0), [1], 100, 25) == Cell(FadingIn, 25)
    ensures Run(Cell(FadingIn, 0), [1, 1], 100, 25) == Cell(FadingIn, 50)
    ensures Run(Cell(FadingIn, 0), [1, 1, 1], 100, 25) == Cell(FadingIn, 75)
    ensures Run(Cell(FadingIn, 0), [1, 1, 1, 1], 100, 25) == Cell(FadingOut, 100)
    ensures Run(Cell(FadingOut, 100), [1], 100, 25) == Cell(FadingOut, 75)
    ensures Run(Cell(FadingOut, 100), [1, 1], 100, 25) == Cell(FadingOut, 50)
    ensures Run(Cell(FadingOut, 100), [1, 1, 1], 100, 25) == Cell(FadingOut, 25)
    ensures Run(Cell(FadingOut, 100), [1, 1, 1, 1], 100, 25) == Cell(FadingOut, 0)
    ensures Run(Cell(FadingOut, 100), [1, 1, 1, 1, 1], 100, 25) == Cell(Off, 0)
  {
  }
}
