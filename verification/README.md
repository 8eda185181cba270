# LEDController animation core in Dafny

This project models the animation state machine of `LEDController`, an
Arduino driver for an addressable LED strip. The strip shows two effects.

- **Shooting stars.** A star is a lit head that walks across an inclusive
  pixel range. Each tick, the lit pixels behind the head are faded.
- **Twinkle.** Every pixel that no running star claims runs a three-state
  machine (OFF, FADING_IN, FADING_OUT). A pixel wakes on a zero random draw
  and is painted grey at its brightness.

`update()` runs one tick. The stars take their steps in list order. Finished
stars are removed, keeping the order of the rest. Then the twinkle field
advances, if its millisecond timer has fired.

The project has four modules:

- `Colors` (`colors.dfy`). Fixed-width integer types and the `Rgb` pixel.
  `Pack`/`Unpack` model the packed 0xRRGGBB word; `AdjustBrightness` models
  the integer rescaling of a colour.
- `Stars` (`stars.dfy`). One star's tick (`StepStar`), the star loop of
  `update` (`StepAll`), the purge (`Survivors`) and the pixels claimed by
  running stars (`Claimed`). All are pure functions with lemmas about them.
- `Twinkle` (`twinkle.dfy`). The wrapping timer gate (`Elapsed`, `Fires`),
  one pixel's step (`Step`), one firing over the whole strip
  (`TwinklePass`), and lemmas about runs of firings.
- `Controller` (`controller.dfy`). The class `LEDController`, whose fields
  are those of the C++ class. The pixel buffer, the twinkle brightness and
  the twinkle state are arrays, and the star list is a sequence. The tick
  methods (`Update` and the steps it is made of, `FadeLEDsBehind`) are
  proved against the functions of `Stars` and `Twinkle`; the other methods
  state the new state directly.

`strip.show()` is counted in the ghost field `flushes`. The clock reading
`now` and the random draws are parameters of `Update` and `UpdateTwinkle`.
There is one draw per pixel; it is read only when that pixel is OFF and
unclaimed. Each draw is below `twinkleChance`, and is 0 when the chance is 0,
as Arduino's `random(0)` returns 0.

Three points where the code does something its names and comments do not
suggest; the model follows the code:

- **The fade pass rescales rather than subtracts.** The name `fadeSteps`
  and the subtraction `brightness -= star.fadeSteps` (LEDController.cpp:101-109)
  suggest a pixel loses `fadeSteps` of brightness per tick. But the value
  reduced is the strip's global brightness, which nothing ever changes, so
  it starts at 255 every time, and `adjustBrightness` then rescales the
  pixel to that level (LEDController.cpp:110, 223-235). Every lit pixel of
  the range is therefore rescaled to `(255 - fadeSteps) / 255` of itself on
  each tick. The decay is geometric: with `fadeSteps` 50, red 255 becomes
  205, then 164, and so on. `FadeMakesProgress` proves that every tick
  still lowers the total light of the range while that fraction is below
  one. `FadeStallsAtFullLevel` proves that with `fadeSteps` 0 the range
  never darkens.
- **A star's range is dark only at the star's own step.** The comment at
  LEDController.cpp:65 says the animation ends when all of the star's
  pixels have faded. A star ends only when its own fade pass leaves its range dark
  (`StepStar`), but a later star in the same tick may light a pixel of that
  range again, so the range need not be dark at the end of the tick.
- **A chance of 0 is accepted.** `setTwinkleChance` (LEDController.cpp:204-207)
  stores any `uint16_t`, including 0. Arduino's `random(0)` returns 0, so
  with a chance of 0 every draw is 0 and every unclaimed OFF pixel wakes
  on every firing (`CertainWakeUp`).

## Model

| member | source | states |
|---|---|---|
| Colors.UnpackPack | LEDController.cpp:223-235 | Unpacking the word `strip.Color` packs gives back the three channels. |
| Colors.PackUnpack | LEDController.cpp:223-235 | Every 24-bit word is the packing of its own three channels, so packing is a bijection onto 24-bit words. |
| Colors.Pack | LEDController.cpp:97-98 | `strip.Color` packs a colour into a 24-bit word, and the word is 0 exactly when the colour is black. The methods compare with black on this ground. |
| Colors.ScaleDims | LEDController.cpp:229-233 | Scaling a channel gives `ch * level / 255`, truncated. It never raises the channel. It gives 0 at level 0 and the channel itself at level 255. Below 255 it strictly lowers every non-zero channel. |
| Colors.AdjustBrightness | LEDController.cpp:223-235 | Rescaling keeps every channel at or below its old value and keeps black black. It gives black at level 0 and the colour itself at 255. Below 255 it strictly lowers the total light of any lit colour. |
| Stars.FadeLevel | LEDController.cpp:101-109 | The fade level is the global brightness minus `fadeSteps`, saturating at 0. |
| Stars.FadePass | LEDController.cpp:92-112 | Only lit pixels of `[startLED, endLED]` change, each to its colour rescaled to the fade level. Black pixels and pixels outside the range are unchanged. |
| Stars.FadePassDims | LEDController.cpp:92-115 | The fade pass raises no channel of any pixel. |
| Stars.FadeMakesProgress | LEDController.cpp:92-115 | If the fade level is below 255 and a pixel of the range is lit, the pass strictly lowers the total light of the range. |
| Stars.FadeStallsAtFullLevel | LEDController.cpp:101-110 | At fade level 255 (global 255, `fadeSteps` 0) the pass changes nothing. |
| Stars.StepStar | LEDController.cpp:49-66 | A finished star changes nothing. The fade pass runs first. Then either the head pixel is set to the star's colour and `currentLED` moves up by one, or, past the end, the star ends exactly when its faded range is dark. The range, colour and fade steps are kept, and the flush count is given. |
| Stars.StepAll | LEDController.cpp:47-67 | Each star of the list advances by at most one pixel and can only stop. A running star whose head has not passed its end comes out running with its head exactly one pixel further, and a star stops only once its head is past its end. Every star stays on the strip, and pixels outside every star's range are untouched. |
| Stars.StepAllWritesHead | LEDController.cpp:47-58 | Within the star loop, a running star whose head has not passed its end leaves its colour at the head pixel and moves its head one pixel on, whatever the stars before it did. |
| Stars.Survivors | LEDController.cpp:70-73 | After the purge, the list holds exactly the running stars and is no longer than before. |
| Stars.SurvivorsAppend | LEDController.cpp:70-73 | The purge keeps relative order: purging a concatenation is concatenating the purged parts. |
| Stars.SurvivorsOfRunning | LEDController.cpp:70-73 | A list of running stars passes the purge unchanged. |
| Stars.SurvivorsRunning | LEDController.cpp:70-73 | After the purge every star is running and still lies on the strip. |
| Stars.ClaimedAfterPurge | LEDController.cpp:70-76 | The purge does not change which pixels running stars claim. |
| Twinkle.Elapsed | LEDController.cpp:155-156 | `currentTime - lastTwinkleUpdate` on 32-bit unsigned values: the plain difference when the clock has not wrapped, the difference plus 2^32 when it has. |
| Twinkle.Fires | LEDController.cpp:156 | The twinkle gate never fires at the millisecond it last fired, and without a wraparound it fires exactly when more than the interval has passed. |
| Twinkle.ElapsedAcrossWrap | LEDController.cpp:155-156 | The wrapping subtraction gives the true elapsed time when less than 2^32 ms passed, even across a clock wraparound. |
| Twinkle.Step | LEDController.cpp:166-195 | OFF becomes FADING_IN at 0 exactly on a zero draw. FADING_IN turns to FADING_OUT exactly when brightness plus fade reaches the maximum. FADING_OUT turns OFF exactly when brightness is at most 0. States only follow the cycle. Brightness only rises while fading in and only falls while fading out. A brightness in `[0, max]` stays there. |
| Twinkle.TwinklePass | LEDController.cpp:160-198 | A pixel claimed by a running star keeps its state, brightness and colour. Every other pixel takes one `Step` and is painted grey at its new brightness. Brightness stays a byte, and stays at most the maximum if it was. |
| Twinkle.RunAppend | LEDController.cpp:166-195 | Running the step over two sequences of firings is running over the first, then the second. |
| Twinkle.RunStaysInRange | LEDController.cpp:166-195 | A brightness in `[0, max]` stays in `[0, max]` over any number of firings. |
| Twinkle.FadeInReachesPeak | LEDController.cpp:175-182 | With a non-zero fade amount, a fading-in pixel reaches the maximum and turns to fading out after `StepsToPeak` firings, whatever the draws. |
| Twinkle.FadeOutReachesOff | LEDController.cpp:183-194 | With a non-zero fade amount, a fading-out pixel reaches brightness 0 and then OFF after `StepsToOff` firings. |
| Twinkle.TwinkleCycle | LEDController.cpp:166-195 | A pixel woken by a zero draw is FADING_OUT at the maximum after the wake-up and `StepsToPeak` firings, and OFF at brightness 0 after `StepsToOff` more. |
| Twinkle.StallsWithoutFade | LEDController.cpp:175-194 | With fade amount 0, a lit fading-out pixel, or a fading-in pixel below the maximum, never changes. |
| Twinkle.CertainWakeUp | LEDController.cpp:168-174 | With a chance of 0 or 1, every unclaimed OFF pixel starts fading in at 0 on each firing. |
| Twinkle.FadeEqualToMaxCycle | LEDController.cpp:166-195 | With fade amount equal to the maximum, a woken pixel shows 0, then the maximum, then 0, then turns OFF. |
| Twinkle.QuarterStepsCycle | LEDController.cpp:166-195 | With maximum 100 and fade 25, fading in takes 4 firings and passes 25, 50, 75 before reaching 100. Fading out takes 5 firings and passes 75, 50, 25, 0 before turning OFF. |
| Controller.LEDController.constructor | LEDController.cpp:4-9 | The three buffers are new arrays. The pixels are dark, every pixel is OFF at brightness 0, and there are no stars. The twinkle parameters are 0 and the chance is 500. |
| Controller.LEDController.StartShootingStar | LEDController.cpp:20-30 | Appends exactly one running star, with its head at `startLED` and the given colour and fade steps. Earlier stars are unchanged. |
| Controller.LEDController.LightUp | LEDController.cpp:33-41 | Pixels in `[startLED, endLED)` get the colour `(grb[1], grb[0], grb[2])`. All other pixels are black. The strip is sent once. |
| Controller.LEDController.Update | LEDController.cpp:44-77 | The stars take `StepAll`, then the list becomes `Survivors` of the result. Then the twinkle field takes `TwinklePass` against the surviving stars if the timer fired, and is unchanged otherwise. The flush count adds up, and a repeat at the same time cannot fire. |
| Controller.LEDController.AdvanceStars | LEDController.cpp:47-67 | The star loop leaves the list and the pixels exactly as `StepAll` computes them. |
| Controller.LEDController.StepShootingStar | LEDController.cpp:49-66 | One star's loop body leaves the star, the pixels and the flush count exactly as `StepStar` computes them. |
| Controller.LEDController.RemoveFinished | LEDController.cpp:70-73 | The list becomes `Survivors` of itself. |
| Controller.LEDController.IsLEDAnimating | LEDController.cpp:80-89 | True exactly when some star is running. Since finished stars never stay in the list, that means the list is not empty. |
| Controller.LEDController.FadeLEDsBehind | LEDController.cpp:92-115 | The pixels become `FadePass` of the old pixels. The strip is sent once exactly when a pixel of the range was lit. |
| Controller.LEDController.AllLEDsFaded | LEDController.cpp:118-126 | True exactly when every pixel of `[startLED, endLED]` is black. |
| Controller.LEDController.SetFadeSteps | LEDController.cpp:129-135 | Every star in the list gets the new fade steps, and nothing else about it changes. |
| Controller.LEDController.StartTwinkle | LEDController.cpp:138-144 | Stores the maximum brightness, the update interval and the fade amount, and keeps the controller valid. |
| Controller.LEDController.SetTwinkleChance | LEDController.cpp:204-207 | Stores the chance, and keeps the controller valid. |
| Controller.LEDController.UpdateTwinkle | LEDController.cpp:153-201 | If more than the interval has elapsed on the wrapping clock, it records `now`, applies `TwinklePass` and sends the strip once. Otherwise it changes nothing. Either way, a second call at the same `now` cannot fire. |
| Controller.LEDController.TwinklePixel | LEDController.cpp:166-197 | One pixel's state and brightness become `Step` of their old values, and the pixel is painted grey at the new brightness. Nothing else changes. |
| Controller.LEDController.IsWithinShootingStarRange | LEDController.cpp:210-220 | True exactly when a running star's `[startLED, endLED]` holds the index. |

## Left out

- The strip hardware is not modelled: `begin`, the transmission behind `show`, and the pin and pixel type. The buffer is an array of colours. `show` only increments the ghost counter `flushes`.
- `getPixelColor` rescaling by the strip's brightness is not modelled. Nothing in the code sets a brightness, so `getBrightness()` is the constant field `globalBrightness`, 255 from construction, and stored pixels read back unchanged.
- `millis()` is not modelled: the time is the parameter `now`, a 32-bit `unsigned long`.
- `randomSeed(analogRead(0))` and `random(twinkleChance)` are not modelled: the draws are an input sequence with one draw per pixel. The draws are arbitrary, so this covers every stream the generator could produce. Seeding is out of scope.
- Colors.AdjustBrightness: floating point is not modelled. The source stores `brightness / 255.0` in a single-precision `float` and truncates `ch * factor` to `uint8_t`; the model writes this as the integer quotient `ch * level / 255`.
- `ParticleShot`, `particleShots` and `startParticleShot` are declared in the header but have no implementation in the source. They are not part of this model.
- Controller.LEDController.StartShootingStar: requires `startLED <= endLED < numLeds`. The source does not check this. An out-of-range star is not modelled, and neither is the `uint16_t` wrap of `currentLED` that `endLED = 65535` would cause.
- Controller.LEDController.StartShootingStar: the `maxBrightness` argument is accepted and unused, as in the source.
- Controller.LEDController.UpdateTwinkle: the conversion of `brightness[i]` to `uint8_t` in `strip.Color` is not written out. `Valid()` proves every brightness stays within 0..255, so the conversion never changes a value.
- Controller.LEDController.TwinklePixel and Controller.LEDController.StepShootingStar: these are loop bodies of `updateTwinkle` and `update`, written as methods of their own; the code is the same.
