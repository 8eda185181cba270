/** The shooting-star set as values: one star's tick (fade pass, then head
    advance or completion check), the tick of the whole list in order, the
    purge of finished stars, and the ranges that running stars claim. */
module Stars {
  import opened Colors

  /** One travelling light pulse over the inclusive range [startLED, endLED]. */
  datatype ShootingStar = ShootingStar(
    startLED: U16,
    endLED: U16,
    currentLED: U16,
    color: Rgb,
    fadeSteps: Byte,
    isAnimating: bool)

  /** The range lies on a strip of `n` pixels (a `uint16_t` count) and the
      head is at most one past its end. */
  predicate WellFormed(s: ShootingStar, n: nat)
  {
    s.startLED <= s.endLED < n <= 0xFFFF && s.startLED <= s.currentLED <= s.endLED + 1
  }

  predicate AllWellFormed(stars: seq<ShootingStar>, n: nat)
  {
    forall k :: 0 <= k < |stars| ==> WellFormed(stars[k], n)
  }

  predicate InRange(s: ShootingStar, i: int)
  {
    s.startLED <= i <= s.endLED
  }

  /** The brightness every lit pixel of the range is rescaled to: the strip's
      global brightness lowered by `fadeSteps`, saturating at zero. */
  function FadeLevel(global: Byte, fadeSteps: Byte): (l: Byte)
    ensures l <= global
    ensures l == 0 || l + fadeSteps == global
    ensures l + fadeSteps >= global
  {
    if global > fadeSteps then global - fadeSteps else 0
  }

  /** The pixels after `fadeLEDsBehind`: every non-black pixel of the star's
      range rescaled to the fade level, everything else as it was. */
  function FadePass(px: seq<Rgb>, s: ShootingStar, global: Byte): (r: seq<Rgb>)
    requires s.endLED < |px|
    ensures |r| == |px|
    ensures forall i :: 0 <= i < |px| && !InRange(s, i) ==> r[i] == px[i]
    ensures forall i :: 0 <= i < |px| && px[i] == BLACK ==> r[i] == BLACK
    ensures forall i :: 0 <= i < |px| && InRange(s, i) && px[i] != BLACK ==>
              r[i] == AdjustBrightness(px[i], FadeLevel(global, s.fadeSteps))
  {
    var level := FadeLevel(global, s.fadeSteps);
    seq(|px|, i requires 0 <= i < |px| =>
      if InRange(s, i) && px[i] != BLACK then AdjustBrightness(px[i], level) else px[i])
  }

  /** `allLEDsFaded`: every pixel of the star's range is black. */
  predicate AllFaded(px: seq<Rgb>, s: ShootingStar)
    requires s.endLED < |px|
  {
    forall i :: s.startLED <= i <= s.endLED ==> px[i] == BLACK
  }

  /** Total channel intensity of the pixels in [lo, hi). */
  function Glow(px: seq<Rgb>, lo: nat, hi: nat): nat
    requires lo <= hi <= |px|
    decreases hi - lo
  {
    if lo == hi then 0 else Intensity(px[lo]) + Glow(px, lo + 1, hi)
  }

  /** `qx` is a dimmed copy of `px` on [lo, hi), strictly dimmer at pixel `j`. */
  predicate DimmedAt(px: seq<Rgb>, qx: seq<Rgb>, lo: nat, hi: nat, j: nat)
  {
    && lo <= j < hi <= |px| == |qx|
    && (forall i :: lo <= i < hi ==> Intensity(qx[i]) <= Intensity(px[i]))
    && Intensity(qx[j]) < Intensity(px[j])
  }

  lemma {:induction false} GlowDims(px: seq<Rgb>, qx: seq<Rgb>, lo: nat, hi: nat, j: nat)
    requires DimmedAt(px, qx, lo, hi, j)
    ensures Glow(qx, lo, hi) < Glow(px, lo, hi)
    decreases hi - lo
  {
    if j == lo {
      GlowNoBrighter(px, qx, lo + 1, hi);
    } else {
      GlowDims(px, qx, lo + 1, hi, j);
    }
  }

  lemma {:induction false} GlowNoBrighter(px: seq<Rgb>, qx: seq<Rgb>, lo: nat, hi: nat)
    requires lo <= hi <= |px| == |qx|
    requires forall i :: lo <= i < hi ==> Intensity(qx[i]) <= Intensity(px[i])
    ensures Glow(qx, lo, hi) <= Glow(px, lo, hi)
    decreases hi - lo
  {
    if lo < hi {
      GlowNoBrighter(px, qx, lo + 1, hi);
    }
  }

  lemma FadeMakesProgress(px: seq<Rgb>, s: ShootingStar, global: Byte)
    requires s.startLED <= s.endLED < |px|
    requires FadeLevel(global, s.fadeSteps) < 255
    requires !AllFaded(px, s)
    ensures Glow(FadePass(px, s, global), s.startLED, s.endLED + 1) < Glow(px, s.startLED, s.endLED + 1)
  {
    var qx := FadePass(px, s, global);
    var j := FadeDims(px, s, global);
    GlowDims(px, qx, s.startLED, s.endLED + 1, j);
  }

  /** A lit pixel of the range, and the fade pass dims the range there. */
  lemma FadeDims(px: seq<Rgb>, s: ShootingStar, global: Byte) returns (j: nat)
    requires s.startLED <= s.endLED < |px|
    requires FadeLevel(global, s.fadeSteps) < 255
    requires !AllFaded(px, s)
    ensures DimmedAt(px, FadePass(px, s, global), s.startLED, s.endLED + 1, j)
  {
    j :| s.startLED <= j <= s.endLED && px[j] != BLACK;
    FadePassDims(px, s, global);
    assert Intensity(AdjustBrightness(px[j], FadeLevel(global, s.fadeSteps))) < Intensity(px[j]);
  }

  /** `fadeLEDsBehind` raises no channel of any pixel. */
  lemma FadePassDims(px: seq<Rgb>, s: ShootingStar, global: Byte)
    requires s.endLED < |px|
    ensures forall i :: 0 <= i < |px| ==>
              && FadePass(px, s, global)[i].red <= px[i].red
              && FadePass(px, s, global)[i].green <= px[i].green
              && FadePass(px, s, global)[i].blue <= px[i].blue
  {
    forall i | 0 <= i < |px|
      ensures FadePass(px, s, global)[i].red <= px[i].red
      ensures FadePass(px, s, global)[i].green <= px[i].green
      ensures FadePass(px, s, global)[i].blue <= px[i].blue
    {
      assert AdjustBrightness(px[i], FadeLevel(global, s.fadeSteps)).red <= px[i].red;
    }
  }

  /** With a fade level of full brightness (global 255 and fadeSteps 0) the fade
      pass changes nothing, so a lit range never goes dark by itself. */
  lemma FadeStallsAtFullLevel(px: seq<Rgb>, s: ShootingStar, global: Byte)
    requires s.endLED < |px|
    requires FadeLevel(global, s.fadeSteps) == 255
    ensures FadePass(px, s, global) == px
  {
    var qx := FadePass(px, s, global);
    forall i | 0 <= i < |px|
      ensures qx[i] == px[i]
    {
      assert AdjustBrightness(px[i], 255) == px[i];
    }
  }

  /** The result of one star's tick: the star, the pixels, the flushes it made. */
  datatype StarTick = StarTick(star: ShootingStar, pixels: seq<Rgb>, shows: nat)

  /** A tick keeps a star's range, colour and fade steps; moves its head
      forward by at most one; and can only end its animation. */
  predicate Advanced(before: ShootingStar, after: ShootingStar)
  {
    && after == before.(currentLED := after.currentLED, isAnimating := after.isAnimating)
    && before.currentLED <= after.currentLED <= before.currentLED + 1
    && (after.isAnimating ==> before.isAnimating)
  }

  /** One iteration of the loop body of `update` for one star. */
  function StepStar(s: ShootingStar, px: seq<Rgb>, global: Byte): (r: StarTick)
    requires WellFormed(s, |px|)
    ensures |r.pixels| == |px| && WellFormed(r.star, |px|)
    ensures Advanced(s, r.star)
    ensures !s.isAnimating ==> r == StarTick(s, px, 0)
    ensures forall i :: 0 <= i < |px| && !InRange(s, i) ==> r.pixels[i] == px[i]
    // the head: written after the fade pass, then moved one step on
    ensures s.isAnimating && s.currentLED <= s.endLED ==>
              && r.star.isAnimating
              && r.star.currentLED == s.currentLED + 1
              && r.pixels[s.currentLED] == s.color
              && (forall i :: 0 <= i < |px| && i != s.currentLED ==>
                    r.pixels[i] == FadePass(px, s, global)[i])
    // past the end: the animation ends exactly when the faded range is dark
    ensures s.isAnimating && s.currentLED > s.endLED ==>
              && r.pixels == FadePass(px, s, global)
              && r.star.currentLED == s.currentLED
              && (r.star.isAnimating <==> !AllFaded(r.pixels, s))
    // the animation never ends while a pixel of the range is lit
    ensures s.isAnimating && !r.star.isAnimating ==>
              s.currentLED > s.endLED && AllFaded(r.pixels, s)
    // one flush if the fade pass found a lit pixel, one more for a head write
    ensures s.isAnimating ==>
              r.shows == (if AllFaded(px, s) then 0 else 1) + (if s.currentLED <= s.endLED then 1 else 0)
  {
    if !s.isAnimating then StarTick(s, px, 0)
    else
      var faded := FadePass(px, s, global);
      var fadeShows := if AllFaded(px, s) then 0 else 1;
      if s.currentLED <= s.endLED then
        StarTick(s.(currentLED := s.currentLED + 1), faded[s.currentLED := s.color], fadeShows + 1)
      else if !AllFaded(faded, s) then
        StarTick(s, faded, fadeShows)
      else
        StarTick(s.(isAnimating := false), faded, fadeShows)
  }

  /** Some star of the list has `i` in its range. */
  predicate Covered(stars: seq<ShootingStar>, i: int)
  {
    exists k :: 0 <= k < |stars| && InRange(stars[k], i)
  }

  /** The result of the star loop of `update`. */
  datatype ListTick = ListTick(stars: seq<ShootingStar>, pixels: seq<Rgb>, shows: nat)

  /** The star loop of `update`: every star stepped in list order, each one
      seeing the pixels the stars before it left. */
  function StepAll(stars: seq<ShootingStar>, px: seq<Rgb>, global: Byte): (r: ListTick)
    requires AllWellFormed(stars, |px|)
    ensures |r.stars| == |stars| && |r.pixels| == |px|
    ensures AllWellFormed(r.stars, |px|)
    ensures forall k :: 0 <= k < |stars| ==> Advanced(stars[k], r.stars[k])
    // a running star before its end moves its head exactly one pixel on and
    // keeps running; a star stops only once its head is past its end
    ensures forall k :: 0 <= k < |stars| && stars[k].isAnimating && stars[k].currentLED <= stars[k].endLED ==>
              r.stars[k] == stars[k].(currentLED := stars[k].currentLED + 1)
    ensures forall k :: 0 <= k < |stars| && stars[k].isAnimating && !r.stars[k].isAnimating ==>
              stars[k].currentLED > stars[k].endLED
    ensures forall i :: 0 <= i < |px| && !Covered(stars, i) ==> r.pixels[i] == px[i]
    decreases |stars|
  {
    if stars == [] then ListTick([], px, 0)
    else
      var prev := StepAll(stars[..|stars| - 1], px, global);
      var t := StepStar(stars[|stars| - 1], prev.pixels, global);
      var r := ListTick(prev.stars + [t.star], t.pixels, prev.shows + t.shows);
      assert forall i :: !Covered(stars, i) ==> !Covered(stars[..|stars| - 1], i) && !InRange(stars[|stars| - 1], i);
      r
  }

  /** The star loop after k + 1 stars is the loop after k stars followed by
      the step of star k. */
  lemma StepAllExtend(stars: seq<ShootingStar>, k: nat, px: seq<Rgb>, global: Byte)
    requires AllWellFormed(stars, |px|) && k < |stars|
    ensures var prev := StepAll(stars[..k], px, global);
            var t := StepStar(stars[k], prev.pixels, global);
            StepAll(stars[..k + 1], px, global) == ListTick(prev.stars + [t.star], t.pixels, prev.shows + t.shows)
  {
    assert stars[..k + 1][..k] == stars[..k];
  }

  /** Within the star loop, a running star whose head has not passed its end
      leaves its colour at the head and moves the head one pixel on: once the
      first k + 1 stars have stepped, star k's head pixel holds its colour,
      whatever the stars before it did. */
  lemma StepAllWritesHead(stars: seq<ShootingStar>, k: nat, px: seq<Rgb>, global: Byte)
    requires AllWellFormed(stars, |px|) && k < |stars|
    requires stars[k].isAnimating && stars[k].currentLED <= stars[k].endLED
    ensures var r := StepAll(stars[..k + 1], px, global);
            && r.pixels[stars[k].currentLED] == stars[k].color
            && r.stars[k].isAnimating
            && r.stars[k].currentLED == stars[k].currentLED + 1
  {
    StepAllExtend(stars, k, px, global);
  }

  /** `remove_if(!isAnimating)` followed by `erase`: the running stars, in order. */
  function Survivors(stars: seq<ShootingStar>): (r: seq<ShootingStar>)
    ensures |r| <= |stars|
    ensures forall s :: s in r <==> s in stars && s.isAnimating
    decreases |stars|
  {
    if stars == [] then []
    else
      var last := stars[|stars| - 1];
      var prefix := stars[..|stars| - 1];
      assert stars == prefix + [last];
      Survivors(prefix) + (if last.isAnimating then [last] else [])
  }

  /** The purge keeps relative order: filtering a concatenation is the
      concatenation of the filtered parts. */
  lemma {:induction false} SurvivorsAppend(a: seq<ShootingStar>, b: seq<ShootingStar>)
    ensures Survivors(a + b) == Survivors(a) + Survivors(b)
    decreases |b|
  {
    if b != [] {
      var b' := b[..|b| - 1];
      assert (a + b)[..|a + b| - 1] == a + b';
      SurvivorsAppend(a, b');
    } else {
      assert a + b == a;
    }
  }

  /** A list of running stars survives the purge unchanged. */
  lemma {:induction false} SurvivorsOfRunning(stars: seq<ShootingStar>)
    requires forall k :: 0 <= k < |stars| ==> stars[k].isAnimating
    ensures Survivors(stars) == stars
    decreases |stars|
  {
    if stars != [] {
      var prefix := stars[..|stars| - 1];
      SurvivorsOfRunning(prefix);
      assert prefix + [stars[|stars| - 1]] == stars;
    }
  }

  /** After the purge every star is running and still lies on the strip. */
  lemma SurvivorsRunning(stars: seq<ShootingStar>, n: nat)
    requires AllWellFormed(stars, n)
    ensures AllWellFormed(Survivors(stars), n)
    ensures forall k :: 0 <= k < |Survivors(stars)| ==> Survivors(stars)[k].isAnimating
  {
    var r := Survivors(stars);
    forall k | 0 <= k < |r|
      ensures WellFormed(r[k], n) && r[k].isAnimating
    {
      assert r[k] in stars;
    }
  }

  /** `isWithinShootingStarRange`: a running star of the list has `i` in its range. */
  predicate Claimed(stars: seq<ShootingStar>, i: int)
  {
    exists k :: 0 <= k < |stars| && stars[k].isAnimating && InRange(stars[k], i)
  }

  /** The purge does not change which pixels are claimed: only running stars
      claim, and the purge keeps every running star. */
  lemma ClaimedAfterPurge(stars: seq<ShootingStar>, i: int)
    ensures Claimed(Survivors(stars), i) <==> Claimed(stars, i)
  {
    var r := Survivors(stars);
    if Claimed(r, i) {
      var k :| 0 <= k < |r| && r[k].isAnimating && InRange(r[k], i);
      assert r[k] in stars;
      var k' :| 0 <= k' < |stars| && stars[k'] == r[k];
    }
    if Claimed(stars, i) {
      var k :| 0 <= k < |stars| && stars[k].isAnimating && InRange(stars[k], i);
      assert stars[k] in r;
      var k' :| 0 <= k' < |r| && r[k'] == stars[k];
    }
  }
}
