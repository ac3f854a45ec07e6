/** Eye-aspect-ratio: the ratio of two vertical eye-landmark distances to the
    horizontal one, and the threshold below which an eye counts as closed. The
    three Euclidean distances come in as measured values; the landmark
    coordinates and the square roots that produce them stay outside. */
module EyeAspect {

  /** An eye counts as closed when its ratio is strictly below this value. */
  const EarThreshold: real := 0.22

  /** The distances between landmarks 1-5 and 2-4 (vertical) and 0-3
      (horizontal) of one eye's six-landmark subset. */
  datatype EyeDistances = EyeDistances(v1: real, v2: real, h: real)

  /** One detected face: the distances of its left and right eye. */
  datatype Face = Face(left: EyeDistances, right: EyeDistances)

  /** The ratio; a degenerate eye of zero width gives exactly 0.0 instead of
      a division by zero. */
  function CalculateEar(d: EyeDistances): (ear: real)
    ensures d.h == 0.0 ==> ear == 0.0
    ensures d.h != 0.0 ==> ear * (2.0 * d.h) == d.v1 + d.v2
  {
    if d.h == 0.0 then 0.0 else (d.v1 + d.v2) / (2.0 * d.h)
  }

  lemma EarNonNegative(d: EyeDistances)
    requires d.v1 >= 0.0 && d.v2 >= 0.0 && d.h >= 0.0
    ensures CalculateEar(d) >= 0.0
  {
  }

  predicate IsClosed(ear: real) {
    ear < EarThreshold
  }

  /** The test is strict: an eye exactly at the threshold is open. */
  lemma ThresholdIsStrict()
    ensures !IsClosed(EarThreshold)
    ensures IsClosed(0.0)
  {
  }

  /** A zero-width eye reads as a closed eye. */
  lemma DegenerateEyeIsClosed(d: EyeDistances)
    requires d.h == 0.0
    ensures IsClosed(CalculateEar(d))
  {
  }

  /** A closed eye is one whose vertical opening is less than 0.44 times its
      width. */
  lemma ClosedIffNarrow(d: EyeDistances)
    requires d.h > 0.0
    ensures IsClosed(CalculateEar(d)) <==> d.v1 + d.v2 < 2.0 * EarThreshold * d.h
  {
    var ear := CalculateEar(d);
    assert ear * (2.0 * d.h) == d.v1 + d.v2;
    if ear < EarThreshold {
      assert ear * (2.0 * d.h) < EarThreshold * (2.0 * d.h);
    } else {
      assert ear * (2.0 * d.h) >= EarThreshold * (2.0 * d.h);
    }
  }

  /** What one frame's landmark results yield: the raw ratios and the
      thresholded blink flags of both eyes. */
  datatype EyeReadings = EyeReadings(earLeft: real, earRight: real, blinkLeft: bool, blinkRight: bool)

  predicate LeftClosedIn(faces: seq<Face>) {
    exists k :: 0 <= k < |faces| && IsClosed(CalculateEar(faces[k].left))
  }

  predicate RightClosedIn(faces: seq<Face>) {
    exists k :: 0 <= k < |faces| && IsClosed(CalculateEar(faces[k].right))
  }

  /** With no face both ratios are 0.0 and both eyes open; otherwise the
      ratios are those of the last face, and an eye blinks when it is closed
      in any face. */
  function Readings(faces: seq<Face>): EyeReadings {
    if faces == [] then EyeReadings(0.0, 0.0, false, false)
    else
      var last := faces[|faces| - 1];
      EyeReadings(CalculateEar(last.left), CalculateEar(last.right), LeftClosedIn(faces), RightClosedIn(faces))
  }

  /** The per-face loop of the frame loop: each face overwrites the ratios,
      and a closed eye in any face raises its flag. */
  method MeasureEyes(faces: seq<Face>) returns (r: EyeReadings)
    ensures r == Readings(faces)
  {
    r := EyeReadings(0.0, 0.0, false, false);
    for i := 0 to |faces|
      invariant i == 0 ==> r.earLeft == 0.0 && r.earRight == 0.0
      invariant i > 0 ==> r.earLeft == CalculateEar(faces[i - 1].left)
      invariant i > 0 ==> r.earRight == CalculateEar(faces[i - 1].right)
      invariant r.blinkLeft == LeftClosedIn(faces[..i])
      invariant r.blinkRight == RightClosedIn(faces[..i])
    {
      var earLeft := CalculateEar(faces[i].left);
      var earRight := CalculateEar(faces[i].right);
      var blinkLeft := r.blinkLeft;
      var blinkRight := r.blinkRight;
      if earLeft < EarThreshold { blinkLeft := true; }
      if earRight < EarThreshold { blinkRight := true; }
      r := EyeReadings(earLeft, earRight, blinkLeft, blinkRight);
      assert faces[..i + 1] == faces[..i] + [faces[i]];
    }
    assert faces[..|faces|] == faces;
  }

  /** The face mesh is set up for at most one face: then each flag is exactly
      the threshold test of that face's ratio. */
  lemma SingleFaceReadings(f: Face)
    ensures Readings([f]).blinkLeft == IsClosed(Readings([f]).earLeft)
    ensures Readings([f]).blinkRight == IsClosed(Readings([f]).earRight)
  {
    assert [f][0] == f;
  }

  /** Losing the face reads as two open eyes. */
  lemma NoFaceReadsOpen()
    ensures !Readings([]).blinkLeft && !Readings([]).blinkRight
    ensures Readings([]).earLeft == 0.0 && Readings([]).earRight == 0.0
  {
  }
}
