/** The `LEDController` object: the pixel buffer of the strip, the list of
    shooting stars and the per-pixel twinkle state, updated in place. The
    tick methods are proved against the value-level model in `Stars` and
    `Twinkle`; the others state the new state directly.
    The strip's `show()` is counted in the ghost field `flushes`; the clock
    reading and the random draws are parameters. */
module Controller {
  import opened Colors
  import opened Stars
  import opened Twinkle

  /** `twinkleChance` as the constructor sets it. */
  const DEFAULT_TWINKLE_CHANCE: U16 := 500

  /** What `strip.getBrightness()` reports for a strip whose brightness was
      never set: full scale. */
  const FULL_BRIGHTNESS: Byte := 255

  class LEDController {
    const numLeds: U16
    /** The strip's global brightness, read by the fade pass. */
    const globalBrightness: Byte
    /** The strip's pixel buffer. */
    const strip: array<Rgb>
    const brightness: array<int>
    const twinkleState: array<TwinkleState>

    var shootingStars: seq<ShootingStar>
    var lastTwinkleUpdate: U32
    var twinkleMaxBrightness: Byte
    var twinkleUpdateInterval: U16
    var twinkleFadeAmount: Byte
    var twinkleChance: U16

    /** How many times the buffer was sent to the strip. */
    ghost var flushes: nat

    /** The buffers have one entry per pixel, every star lies on the strip and
        is running, and every twinkle brightness fits a byte. */
    ghost predicate Valid()
      reads this, strip, brightness, twinkleState
    {
      && strip.Length == numLeds
      && brightness.Length == numLeds
      && twinkleState.Length == numLeds
      && AllWellFormed(shootingStars, numLeds)
      && (forall k :: 0 <= k < |shootingStars| ==> shootingStars[k].isAnimating)
      && LevelsAreBytes(brightness[..])
    }

    /** The twinkle buffers and the pixels as one value. */
    ghost function TwinkleField(): Field
      reads this, strip, brightness, twinkleState
    {
      Field(twinkleState[..], brightness[..], strip[..])
    }

    /** A dark strip, no stars, every pixel OFF at brightness 0, the twinkle
        parameters zero and the chance 500. */
    constructor(numLeds: U16)
      ensures Valid()
      ensures fresh(strip) && fresh(brightness) && fresh(twinkleState)
      ensures this.numLeds == numLeds && globalBrightness == FULL_BRIGHTNESS
      ensures strip[..] == seq(numLeds, _ => BLACK)
      ensures brightness[..] == seq(numLeds, _ => 0)
      ensures twinkleState[..] == seq(numLeds, _ => Off)
      ensures shootingStars == []
      ensures lastTwinkleUpdate == 0 && twinkleMaxBrightness == 0
      ensures twinkleUpdateInterval == 0 && twinkleFadeAmount == 0
      ensures twinkleChance == DEFAULT_TWINKLE_CHANCE
      ensures flushes == 0
    {
      this.numLeds := numLeds;
      globalBrightness := FULL_BRIGHTNESS;
      strip := new Rgb[numLeds](_ => BLACK);
      brightness := new int[numLeds](_ => 0);
      twinkleState := new TwinkleState[numLeds](_ => Off);
      shootingStars := [];
      lastTwinkleUpdate := 0;
      twinkleMaxBrightness := 0;
      twinkleUpdateInterval := 0;
      twinkleFadeAmount := 0;
      twinkleChance := DEFAULT_TWINKLE_CHANCE;
      flushes := 0;
    }

    /** Appends one running star whose head is at its first pixel; every star
        already in the list is kept as it was. */
    method StartShootingStar(startLED: U16, endLED: U16, rgb: seq<Byte>, maxBrightness: Byte, fadeSteps: Byte)
      requires Valid()
      requires startLED <= endLED < numLeds
      requires |rgb| == 3
      modifies this`shootingStars
      ensures Valid()
      ensures shootingStars == old(shootingStars) + [ShootingStar(startLED, endLED, startLED, Rgb(rgb[0], rgb[1], rgb[2]), fadeSteps, true)]
    {
      var newStar := ShootingStar(startLED, endLED, startLED, Rgb(rgb[0], rgb[1], rgb[2]), fadeSteps, true);
      shootingStars := shootingStars + [newStar];
    }

    /** Clears the strip, paints [startLED, endLED) with the colour given in
        green-red-blue order, and sends it once. Indices past the strip are
        ignored, as `setPixelColor` ignores them. */
    method LightUp(startLED: U16, endLED: U16, grb: seq<Byte>)
      requires Valid()
      requires |grb| == 3
      modifies strip, this`flushes
      ensures Valid()
      ensures forall i :: 0 <= i < strip.Length ==>
                strip[i] == if startLED <= i < endLED then Rgb(grb[1], grb[0], grb[2]) else BLACK
      ensures flushes == old(flushes) + 1
    {
      var i := 0;
      while i < strip.Length
        invariant 0 <= i <= strip.Length
        invariant forall j :: 0 <= j < i ==> strip[j] == BLACK
        invariant brightness[..] == old(brightness[..])
        invariant flushes == old(flushes)
      {
        strip[i] := BLACK;
        i := i + 1;
      }
      var color := Rgb(grb[1], grb[0], grb[2]);
      i := startLED;
      while i < endLED
        invariant startLED <= i <= if startLED <= endLED then endLED as int else startLED as int
        invariant forall j :: 0 <= j < strip.Length ==>
                    strip[j] == if startLED <= j < i then color else BLACK
        invariant brightness[..] == old(brightness[..])
        invariant flushes == old(flushes)
      {
        if i < strip.Length {
          strip[i] := color;
        }
        i := i + 1;
      }
      flushes := flushes + 1;
    }

    /** One call of `update`: every star takes its step in list order, the
        finished stars are removed, then the twinkle field is updated against
        the stars that remain. */
    method Update(now: U32, draws: seq<nat>)
      requires Valid()
      requires |draws| == numLeds && ValidDraws(draws, twinkleChance)
      modifies this, strip, brightness, twinkleState
      ensures Valid()
      ensures !Fires(now, lastTwinkleUpdate, twinkleUpdateInterval)
      ensures var t := StepAll(old(shootingStars), old(strip[..]), globalBrightness);
              && shootingStars == Survivors(t.stars)
              && var before := Field(old(twinkleState[..]), old(brightness[..]), t.pixels);
                 if Fires(now, old(lastTwinkleUpdate), twinkleUpdateInterval) then
                   && TwinkleField() == TwinklePass(before, shootingStars, draws, twinkleMaxBrightness, twinkleFadeAmount)
                   && lastTwinkleUpdate == now
                   && flushes == old(flushes) + t.shows + 1
                 else
                   && TwinkleField() == before
                   && lastTwinkleUpdate == old(lastTwinkleUpdate)
                   && flushes == old(flushes) + t.shows
      ensures twinkleMaxBrightness == old(twinkleMaxBrightness) && twinkleUpdateInterval == old(twinkleUpdateInterval)
      ensures twinkleFadeAmount == old(twinkleFadeAmount) && twinkleChance == old(twinkleChance)
    {
      AdvanceStars();
      ghost var ticked := shootingStars;
      RemoveFinished();
      SurvivorsRunning(ticked, numLeds);
      UpdateTwinkle(now, draws);
    }

    /** The star loop of `update`. */
    method AdvanceStars()
      requires strip.Length == numLeds && AllWellFormed(shootingStars, numLeds)
      modifies this`shootingStars, this`flushes, strip
      ensures var t := StepAll(old(shootingStars), old(strip[..]), globalBrightness);
              && shootingStars == t.stars
              && strip[..] == t.pixels
              && flushes == old(flushes) + t.shows
      ensures AllWellFormed(shootingStars, numLeds)
    {
      ghost var stars0 := shootingStars;
      ghost var px0 := strip[..];
      var k := 0;
      while k < |shootingStars|
        invariant |shootingStars| == |stars0|
        invariant 0 <= k <= |stars0|
        invariant forall j :: k <= j < |stars0| ==> shootingStars[j] == stars0[j]
        invariant var t := StepAll(stars0[..k], px0, globalBrightness);
                  && shootingStars[..k] == t.stars
                  && strip[..] == t.pixels
                  && flushes == old(flushes) + t.shows
      {
        var star := shootingStars[k];
        assert star == stars0[k];
        StepAllExtend(stars0, k, px0, globalBrightness);
        star := StepShootingStar(star);
        shootingStars := shootingStars[k := star];
        assert shootingStars[..k + 1] == shootingStars[..k] + [star];
        k := k + 1;
      }
      assert stars0[..k] == stars0;
      assert shootingStars[..k] == shootingStars;
    }

    /** The body of the star loop of `update` for one star: a finished star is
        skipped; otherwise the range is faded, then the head is drawn and moved
        on, or, past the end, the animation ends once the range is dark. */
    method StepShootingStar(star: ShootingStar) returns (next: ShootingStar)
      requires WellFormed(star, strip.Length)
      modifies strip, this`flushes
      ensures var t := StepStar(star, old(strip[..]), globalBrightness);
              && next == t.star
              && strip[..] == t.pixels
              && flushes == old(flushes) + t.shows
    {
      next := star;
      if !star.isAnimating {
        return;
      }
      FadeLEDsBehind(star);
      if star.currentLED <= star.endLED {
        strip[star.currentLED] := star.color;
        flushes := flushes + 1;
        next := star.(currentLED := star.currentLED + 1);
      } else {
        var faded := AllLEDsFaded(star);
        if faded {
          next := star.(isAnimating := false);
        }
      }
    }

    /** `erase(remove_if(..., !isAnimating))`: the running stars, in order. */
    method RemoveFinished()
      modifies this`shootingStars
      ensures shootingStars == Survivors(old(shootingStars))
    {
      var kept := [];
      var k := 0;
      while k < |shootingStars|
        invariant 0 <= k <= |shootingStars|
        invariant kept == Survivors(shootingStars[..k])
      {
        assert shootingStars[..k + 1][..k] == shootingStars[..k];
        if shootingStars[k].isAnimating {
          kept := kept + [shootingStars[k]];
        }
        k := k + 1;
      }
      assert shootingStars[..k] == shootingStars;
      shootingStars := kept;
    }

    /** `isLEDAnimating`: some star of the list is running; since finished
        stars never stay in the list, that is, the list is not empty. */
    method IsLEDAnimating() returns (r: bool)
      ensures r <==> exists k :: 0 <= k < |shootingStars| && shootingStars[k].isAnimating
      ensures Valid() ==> (r <==> shootingStars != [])
    {
      var k := 0;
      while k < |shootingStars|
        invariant 0 <= k <= |shootingStars|
        invariant forall j :: 0 <= j < k ==> !shootingStars[j].isAnimating
      {
        if shootingStars[k].isAnimating {
          return true;
        }
        k := k + 1;
      }
      if shootingStars != [] {
        assert !shootingStars[0].isAnimating;
      }
      return false;
    }

    /** `fadeLEDsBehind`: every lit pixel of the star's range is rescaled to
        the fade level; the strip is sent once if any pixel was lit. */
    method FadeLEDsBehind(star: ShootingStar)
      requires WellFormed(star, strip.Length)
      modifies strip, this`flushes
      ensures strip[..] == FadePass(old(strip[..]), star, globalBrightness)
      ensures flushes == old(flushes) + if AllFaded(old(strip[..]), star) then 0 else 1
    {
      ghost var px := strip[..];
      ghost var want := FadePass(px, star, globalBrightness);
      var fadeNeeded := false;
      var i: int := star.startLED;
      while i <= star.endLED
        invariant star.startLED <= i <= star.endLED + 1
        invariant forall j :: 0 <= j < strip.Length ==>
                    strip[j] == if star.startLED <= j < i then want[j] else px[j]
        invariant fadeNeeded <==> exists j :: star.startLED <= j < i && px[j] != BLACK
        invariant flushes == old(flushes)
      {
        var currentColor := strip[i];
        if currentColor != BLACK {
          fadeNeeded := true;
          var level: Byte := globalBrightness;
          if level > star.fadeSteps {
            level := level - star.fadeSteps;
          } else {
            level := 0;
          }
          strip[i] := AdjustBrightness(currentColor, level);
        }
        i := i + 1;
      }
      assert strip[..] == want;
      if fadeNeeded {
        flushes := flushes + 1;
      }
    }

    /** `allLEDsFaded`: every pixel of the star's range is black. */
    method AllLEDsFaded(star: ShootingStar) returns (r: bool)
      requires WellFormed(star, strip.Length)
      ensures r == AllFaded(strip[..], star)
    {
      var i: int := star.startLED;
      while i <= star.endLED
        invariant star.startLED <= i <= star.endLED + 1
        invariant forall j :: star.startLED <= j < i ==> strip[j] == BLACK
      {
        if strip[i] != BLACK {
          return false;
        }
        i := i + 1;
      }
      return true;
    }

    /** Gives every star in the list the same fade steps and changes nothing
        else about them. */
    method SetFadeSteps(fadeSteps: Byte)
      requires Valid()
      modifies this`shootingStars
      ensures Valid()
      ensures |shootingStars| == |old(shootingStars)|
      ensures forall k :: 0 <= k < |shootingStars| ==>
                shootingStars[k] == old(shootingStars[k]).(fadeSteps := fadeSteps)
    {
      var k := 0;
      while k < |shootingStars|
        invariant 0 <= k <= |shootingStars| == |old(shootingStars)|
        invariant forall j :: 0 <= j < |shootingStars| ==>
                    shootingStars[j] == if j < k then old(shootingStars[j]).(fadeSteps := fadeSteps) else old(shootingStars[j])
      {
        shootingStars := shootingStars[k := shootingStars[k].(fadeSteps := fadeSteps)];
        k := k + 1;
      }
    }

    /** Sets the three twinkle parameters; seeding the random source is not
        modelled, the draws being inputs of `Update`. */
    method StartTwinkle(maxBrightness: Byte, updateInterval: U16, fadeAmount: Byte)
      requires Valid()
      modifies this`twinkleMaxBrightness, this`twinkleUpdateInterval, this`twinkleFadeAmount
      ensures Valid()
      ensures twinkleMaxBrightness == maxBrightness
      ensures twinkleUpdateInterval == updateInterval
      ensures twinkleFadeAmount == fadeAmount
    {
      twinkleMaxBrightness := maxBrightness;
      twinkleUpdateInterval := updateInterval;
      twinkleFadeAmount := fadeAmount;
    }

    method SetTwinkleChance(chance: U16)
      requires Valid()
      modifies this`twinkleChance
      ensures Valid()
      ensures twinkleChance == chance
    {
      twinkleChance := chance;
    }

    /** `updateTwinkle`: when more than the interval has elapsed on the
        wrapping clock, records the time, steps every pixel that no running
        star claims and paints it grey, and sends the strip once; otherwise
        changes nothing. */
    method UpdateTwinkle(now: U32, draws: seq<nat>)
      requires Valid()
      requires |draws| == numLeds && ValidDraws(draws, twinkleChance)
      modifies this`lastTwinkleUpdate, this`flushes, strip, brightness, twinkleState
      ensures Valid()
      // a second call with the same clock reading does nothing
      ensures !Fires(now, lastTwinkleUpdate, twinkleUpdateInterval)
      ensures if Fires(now, old(lastTwinkleUpdate), twinkleUpdateInterval) then
                && TwinkleField() == TwinklePass(old(TwinkleField()), shootingStars, draws, twinkleMaxBrightness, twinkleFadeAmount)
                && lastTwinkleUpdate == now
                && flushes == old(flushes) + 1
              else
                && TwinkleField() == old(TwinkleField())
                && lastTwinkleUpdate == old(lastTwinkleUpdate)
                && flushes == old(flushes)
    {
      if Elapsed(now, lastTwinkleUpdate) > twinkleUpdateInterval {
        lastTwinkleUpdate := now;
        ghost var before := TwinkleField();
        ghost var want := TwinklePass(before, shootingStars, draws, twinkleMaxBrightness, twinkleFadeAmount);
        var i := 0;
        while i < numLeds
          invariant 0 <= i <= numLeds
          invariant forall j :: 0 <= j < i ==>
                      twinkleState[j] == want.states[j] && brightness[j] == want.levels[j] && strip[j] == want.pixels[j]
          invariant forall j :: i <= j < numLeds ==>
                      twinkleState[j] == before.states[j] && brightness[j] == before.levels[j] && strip[j] == before.pixels[j]
          invariant lastTwinkleUpdate == now && flushes == old(flushes)
        {
          var skip := IsWithinShootingStarRange(i);
          if !skip {
            TwinklePixel(i, draws[i]);
          }
          assert twinkleState[i] == want.states[i] && brightness[i] == want.levels[i] && strip[i] == want.pixels[i];
          i := i + 1;
        }
        assert twinkleState[..] == want.states;
        assert brightness[..] == want.levels;
        assert strip[..] == want.pixels;
        flushes := flushes + 1;
      }
    }

    /** One pixel's case of the `switch` in `updateTwinkle`, followed by
        painting the pixel grey at its new brightness. */
    method TwinklePixel(i: int, draw: nat)
      requires 0 <= i < strip.Length == brightness.Length == twinkleState.Length
      requires 0 <= brightness[i] <= 255
      modifies strip, brightness, twinkleState
      ensures Cell(twinkleState[i], brightness[i]) == Step(old(Cell(twinkleState[i], brightness[i])), draw, twinkleMaxBrightness, twinkleFadeAmount)
      ensures 0 <= brightness[i] <= 255 && strip[i] == Grey(brightness[i])
      ensures twinkleState[..] == old(twinkleState[..])[i := twinkleState[i]]
      ensures brightness[..] == old(brightness[..])[i := brightness[i]]
      ensures strip[..] == old(strip[..])[i := strip[i]]
    {
      match twinkleState[i] {
        case Off =>
          if draw == 0 {
            twinkleState[i] := FadingIn;
            brightness[i] := 0;
          }
        case FadingIn =>
          brightness[i] := brightness[i] + twinkleFadeAmount;
          if brightness[i] >= twinkleMaxBrightness {
            brightness[i] := twinkleMaxBrightness;
            twinkleState[i] := FadingOut;
          }
        case FadingOut =>
          if brightness[i] > 0 {
            brightness[i] := brightness[i] - twinkleFadeAmount;
            if brightness[i] < 0 {
              brightness[i] := 0;
            }
          } else {
            twinkleState[i] := Off;
          }
      }
      strip[i] := Grey(brightness[i]);
    }

    /** `isWithinShootingStarRange`: a running star of the list covers `ledIndex`. */
    method IsWithinShootingStarRange(ledIndex: U16) returns (r: bool)
      ensures r == Claimed(shootingStars, ledIndex)
    {
      var k := 0;
      while k < |shootingStars|
        invariant 0 <= k <= |shootingStars|
        invariant forall j :: 0 <= j < k ==> !(shootingStars[j].isAnimating && InRange(shootingStars[j], ledIndex))
      {
        var star := shootingStars[k];
        if ledIndex >= star.startLED && ledIndex <= star.endLED && star.isAnimating {
          return true;
        }
        k := k + 1;
      }
      return false;
    }
  }
}
