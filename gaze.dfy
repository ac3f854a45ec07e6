/** Gaze smoothing: an exponential moving average of the predicted screen
    point, seeded by the first sample (a smoothed point of (0, 0) meaning "not
    yet seeded"), truncated to pixels and gated by a deadzone around the last
    point the pointer was moved to. */
module Gaze {

  /** Weight of the new sample in the moving average. */
  const SmoothingFactor: real := 0.15

  /** Minimum pixel distance, on either axis, for a pointer move. */
  const Deadzone: int := 2

  datatype Smoothing = Smoothing(smoothX: real, smoothY: real, lastMouseX: int, lastMouseY: int)

  const InitialSmoothing: Smoothing := Smoothing(0.0, 0.0, 0, 0)

  function Abs(n: int): (a: nat)
    ensures a == n || a == -n
  {
    if n < 0 then -n else n
  }

  /** Python's `int()` on a float: truncation toward zero. */
  function Trunc(r: real): (n: int)
    ensures r >= 0.0 ==> 0 <= n && n as real <= r < n as real + 1.0
    ensures r < 0.0 ==> n <= 0 && n as real - 1.0 < r <= n as real
  {
    if r >= 0.0 then r.Floor else -((-r).Floor)
  }

  /** One axis of the moving average: the result lies between the previous
      value and the sample, and its distance to the sample shrinks by the
      factor 1 - 0.15 = 0.85. The weights are written as literals so that
      the arithmetic stays linear; BlendWeights ties them to the constant. */
  function Blend(prev: real, raw: real): (r: real)
    ensures prev <= raw ==> prev <= r <= raw
    ensures raw <= prev ==> raw <= r <= prev
    ensures r - raw == (prev - raw) * 0.85
  {
    prev * 0.85 + raw * 0.15
  }

  lemma BlendWeights(prev: real, raw: real)
    ensures Blend(prev, raw) == prev * (1.0 - SmoothingFactor) + raw * SmoothingFactor
  {
  }

  predicate Unseeded(s: Smoothing) {
    s.smoothX == 0.0 && s.smoothY == 0.0
  }

  predicate OutsideDeadzone(x: int, y: int, lastX: int, lastY: int) {
    Abs(x - lastX) >= Deadzone || Abs(y - lastY) >= Deadzone
  }

  /** The new smoothing state, the truncated gaze point, and whether the
      pointer is moved to it. */
  datatype GazeUpdate = GazeUpdate(smooth: Smoothing, gazeX: int, gazeY: int, moved: bool)

  /** One sample that passed the gate. `active` is the tracking flag. */
  function SmoothStep(s: Smoothing, active: bool, rawX: real, rawY: real): (u: GazeUpdate)
    ensures u.gazeX == Trunc(u.smooth.smoothX) && u.gazeY == Trunc(u.smooth.smoothY)
    ensures u.moved <==> active && OutsideDeadzone(u.gazeX, u.gazeY, s.lastMouseX, s.lastMouseY)
    ensures u.moved ==> u.smooth.lastMouseX == u.gazeX && u.smooth.lastMouseY == u.gazeY
    ensures !u.moved ==> u.smooth.lastMouseX == s.lastMouseX && u.smooth.lastMouseY == s.lastMouseY
  {
    var (sx, sy) :=
      if s.smoothX == 0.0 && s.smoothY == 0.0 then (rawX, rawY)
      else (Blend(s.smoothX, rawX), Blend(s.smoothY, rawY));
    var gx, gy := Trunc(sx), Trunc(sy);
    var moved := active && (Abs(gx - s.lastMouseX) >= Deadzone || Abs(gy - s.lastMouseY) >= Deadzone);
    var (lx, ly) := if moved then (gx, gy) else (s.lastMouseX, s.lastMouseY);
    GazeUpdate(Smoothing(sx, sy, lx, ly), gx, gy, moved)
  }

  /** The first sample is copied in unchanged; later ones are blended. */
  lemma SeedThenBlend(s: Smoothing, active: bool, rawX: real, rawY: real)
    ensures Unseeded(s) ==>
      SmoothStep(s, active, rawX, rawY).smooth.smoothX == rawX &&
      SmoothStep(s, active, rawX, rawY).smooth.smoothY == rawY
    ensures !Unseeded(s) ==>
      SmoothStep(s, active, rawX, rawY).smooth.smoothX == s.smoothX * 0.85 + rawX * 0.15 &&
      SmoothStep(s, active, rawX, rawY).smooth.smoothY == s.smoothY * 0.85 + rawY * 0.15
  {
  }

  /** From the initial state, P0 then P1 gives 0.85 * P0 + 0.15 * P1 on each
      axis, provided P0 is not the point (0, 0). */
  lemma TwoSamples(x0: real, y0: real, x1: real, y1: real, a0: bool, a1: bool)
    requires x0 != 0.0 || y0 != 0.0
    ensures var u0 := SmoothStep(InitialSmoothing, a0, x0, y0);
      u0.smooth.smoothX == x0 && u0.smooth.smoothY == y0 &&
      var u1 := SmoothStep(u0.smooth, a1, x1, y1);
      u1.smooth.smoothX == x0 * 0.85 + x1 * 0.15 && u1.smooth.smoothY == y0 * 0.85 + y1 * 0.15
  {
  }

  /** The zero sentinel: a first sample at (0, 0) leaves the filter unseeded,
      so the next sample is copied in rather than blended with it. */
  lemma ZeroSampleLeavesUnseeded(active: bool, x1: real, y1: real, a1: bool)
    ensures var u0 := SmoothStep(InitialSmoothing, active, 0.0, 0.0);
      Unseeded(u0.smooth) &&
      SmoothStep(u0.smooth, a1, x1, y1).smooth.smoothX == x1 &&
      SmoothStep(u0.smooth, a1, x1, y1).smooth.smoothY == y1
  {
  }

  /** Smoothing runs whether or not tracking is on: the tracking flag
      decides only the move and the last pointer position. */
  lemma SmoothingIgnoresTracking(s: Smoothing, rawX: real, rawY: real)
    ensures SmoothStep(s, true, rawX, rawY).smooth.smoothX == SmoothStep(s, false, rawX, rawY).smooth.smoothX
    ensures SmoothStep(s, true, rawX, rawY).smooth.smoothY == SmoothStep(s, false, rawX, rawY).smooth.smoothY
    ensures !SmoothStep(s, false, rawX, rawY).moved
    ensures SmoothStep(s, false, rawX, rawY).smooth.lastMouseX == s.lastMouseX
    ensures SmoothStep(s, false, rawX, rawY).smooth.lastMouseY == s.lastMouseY
  {
  }

  /** While tracking, after every sample the pointer rests within the
      deadzone of the truncated gaze point on both axes. */
  lemma PointerFollowsGaze(s: Smoothing, rawX: real, rawY: real)
    ensures var u := SmoothStep(s, true, rawX, rawY);
      Abs(u.gazeX - u.smooth.lastMouseX) < Deadzone && Abs(u.gazeY - u.smooth.lastMouseY) < Deadzone
  {
  }

  /** A smoothed point sitting on the sample stays there. */
  lemma SampleIsFixedPoint(s: Smoothing, active: bool)
    ensures var u := SmoothStep(s, active, s.smoothX, s.smoothY);
      u.smooth.smoothX == s.smoothX && u.smooth.smoothY == s.smoothY
  {
  }
}
