/** The per-eye long-blink state machine: a closure onset time (0 meaning
    "no closure under way") and a latch that records whether this closure has
    already produced its click. Evaluated once per frame while tracking is on. */
module Blink {

  /** A closure must last strictly longer than this many seconds to click. */
  const LongBlinkDuration: real := 0.4

  datatype EyeTimer = EyeTimer(blinkStart: real, clickTriggered: bool)

  /** The timer of an open eye, and its initial value. */
  const Open: EyeTimer := EyeTimer(0.0, false)

  /** The latch is set only after an onset has been recorded. */
  predicate Coherent(t: EyeTimer) {
    t.clickTriggered ==> t.blinkStart != 0.0
  }

  datatype EyeUpdate = EyeUpdate(timer: EyeTimer, click: bool)

  /** One frame for one eye, `closed` being the thresholded blink flag and
      `now` the frame time. */
  function EyeStep(t: EyeTimer, closed: bool, now: real): (u: EyeUpdate)
    ensures u.click <==>
      closed && t.blinkStart != 0.0 && now - t.blinkStart > LongBlinkDuration && !t.clickTriggered
    ensures u.click ==> u.timer.clickTriggered
    ensures closed ==> u.timer.clickTriggered == (t.clickTriggered || u.click)
    ensures !closed ==> u.timer == Open
    ensures closed && t.blinkStart == 0.0 ==> u.timer.blinkStart == now && !u.click
    ensures closed && t.blinkStart != 0.0 ==> u.timer.blinkStart == t.blinkStart
    ensures Coherent(t) ==> Coherent(u.timer)
  {
    if closed then
      if t.blinkStart == 0.0 then EyeUpdate(t.(blinkStart := now), false)
      else if now - t.blinkStart > LongBlinkDuration then
        if !t.clickTriggered then EyeUpdate(t.(clickTriggered := true), true)
        else EyeUpdate(t, false)
      else EyeUpdate(t, false)
    else EyeUpdate(Open, false)
  }

  /** One eye's input in one frame. */
  datatype Sample = Sample(closed: bool, now: real)

  datatype EyeRunResult = EyeRunResult(timer: EyeTimer, clicks: nat)

  /** The timer after a run of frames and the number of clicks issued. */
  function EyeRun(t: EyeTimer, samples: seq<Sample>): EyeRunResult
    decreases |samples|
  {
    if samples == [] then EyeRunResult(t, 0)
    else
      var u := EyeStep(t, samples[0].closed, samples[0].now);
      var rest := EyeRun(u.timer, samples[1..]);
      EyeRunResult(rest.timer, rest.clicks + if u.click then 1 else 0)
  }

  predicate AllClosed(samples: seq<Sample>) {
    forall k :: 0 <= k < |samples| ==> samples[k].closed
  }

  /** Some frame of the run lies more than the long-blink duration after
      `start`. */
  predicate Crosses(samples: seq<Sample>, start: real) {
    exists k :: 0 <= k < |samples| && samples[k].now - start > LongBlinkDuration
  }

  /** Once latched, a closure issues no further clicks and stays latched. */
  lemma {:induction false} LatchedClosureIsSilent(t: EyeTimer, samples: seq<Sample>)
    requires t.clickTriggered && AllClosed(samples)
    ensures EyeRun(t, samples).clicks == 0
    ensures EyeRun(t, samples).timer.clickTriggered
    decreases |samples|
  {
    if samples != [] {
      var u := EyeStep(t, samples[0].closed, samples[0].now);
      LatchedClosureIsSilent(u.timer, samples[1..]);
    }
  }

  /** However the timer stands, a continuous closure clicks at most once. */
  lemma {:induction false} AtMostOneClickPerClosure(t: EyeTimer, samples: seq<Sample>)
    requires AllClosed(samples)
    ensures EyeRun(t, samples).clicks <= 1
    ensures t.clickTriggered ==> EyeRun(t, samples).clicks == 0
    decreases |samples|
  {
    if t.clickTriggered {
      LatchedClosureIsSilent(t, samples);
    } else if samples != [] {
      var u := EyeStep(t, samples[0].closed, samples[0].now);
      assert AllClosed(samples[1..]);
      if u.click {
        LatchedClosureIsSilent(u.timer, samples[1..]);
      } else {
        AtMostOneClickPerClosure(u.timer, samples[1..]);
      }
    }
  }

  /** With an onset recorded, a continuous closure keeps the onset, clicks
      exactly once if it was not latched and some frame comes more than
      0.4 s after the onset, and is latched afterwards exactly when it was
      latched before or some frame crossed. */
  lemma {:induction false} HeldClosure(t: EyeTimer, samples: seq<Sample>)
    requires t.blinkStart != 0.0 && AllClosed(samples)
    ensures EyeRun(t, samples).timer.blinkStart == t.blinkStart
    ensures EyeRun(t, samples).clicks ==
      if !t.clickTriggered && Crosses(samples, t.blinkStart) then 1 else 0
    ensures EyeRun(t, samples).timer.clickTriggered ==
      (t.clickTriggered || Crosses(samples, t.blinkStart))
    decreases |samples|
  {
    if samples != [] {
      var u := EyeStep(t, samples[0].closed, samples[0].now);
      var rest := samples[1..];
      assert AllClosed(rest);
      HeldClosure(u.timer, rest);
      assert Crosses(samples, t.blinkStart) ==
        (samples[0].now - t.blinkStart > LongBlinkDuration || Crosses(rest, t.blinkStart)) by {
        if Crosses(rest, t.blinkStart) {
          var k :| 0 <= k < |rest| && rest[k].now - t.blinkStart > LongBlinkDuration;
          assert samples[k + 1] == rest[k];
        }
        if Crosses(samples, t.blinkStart) {
          var k :| 0 <= k < |samples| && samples[k].now - t.blinkStart > LongBlinkDuration;
          if k > 0 {
            assert rest[k - 1] == samples[k];
          }
        }
      }
    }
  }

  /** A sustained closure of an open eye: the first closed frame records the
      onset and never clicks; then exactly one click is issued when some later
      frame comes strictly more than 0.4 s after the onset, and none
      otherwise. */
  lemma SustainedClosure(samples: seq<Sample>)
    requires |samples| > 0 && AllClosed(samples) && samples[0].now != 0.0
    ensures EyeRun(Open, samples).timer.blinkStart == samples[0].now
    ensures EyeRun(Open, samples).clicks ==
      if Crosses(samples[1..], samples[0].now) then 1 else 0
  {
    var u := EyeStep(Open, true, samples[0].now);
    assert AllClosed(samples[1..]);
    HeldClosure(u.timer, samples[1..]);
  }

  /** Running two stretches one after the other. */
  lemma {:induction false} EyeRunAppend(t: EyeTimer, a: seq<Sample>, b: seq<Sample>)
    ensures EyeRun(t, a + b) ==
      EyeRunResult(EyeRun(EyeRun(t, a).timer, b).timer,
                   EyeRun(t, a).clicks + EyeRun(EyeRun(t, a).timer, b).clicks)
    decreases |a|
  {
    if a == [] {
      assert a + b == b;
    } else {
      var u := EyeStep(t, a[0].closed, a[0].now);
      assert (a + b)[0] == a[0];
      assert (a + b)[1..] == a[1..] + b;
      EyeRunAppend(u.timer, a[1..], b);
    }
  }

  /** Running one more frame. */
  lemma EyeRunSnoc(t: EyeTimer, a: seq<Sample>, x: Sample)
    ensures var r := EyeRun(t, a);
      var u := EyeStep(r.timer, x.closed, x.now);
      EyeRun(t, a + [x]) == EyeRunResult(u.timer, r.clicks + if u.click then 1 else 0)
  {
    EyeRunAppend(t, a, [x]);
    assert [x][1..] == [];
  }

  /** Crossing in a concatenation is crossing in one of the parts. */
  lemma CrossesConcat(a: seq<Sample>, b: seq<Sample>, start: real)
    ensures Crosses(a + b, start) <==> Crosses(a, start) || Crosses(b, start)
  {
    if Crosses(a, start) {
      var k :| 0 <= k < |a| && a[k].now - start > LongBlinkDuration;
      assert (a + b)[k] == a[k];
    }
    if Crosses(b, start) {
      var k :| 0 <= k < |b| && b[k].now - start > LongBlinkDuration;
      assert (a + b)[|a| + k] == b[k];
    }
    if Crosses(a + b, start) {
      var k :| 0 <= k < |a + b| && (a + b)[k].now - start > LongBlinkDuration;
      if k < |a| {
        assert a[k] == (a + b)[k];
      } else {
        assert b[k - |a|] == (a + b)[k];
      }
    }
  }

  /** The frame that sets the onset never crosses it, so only later frames
      decide. */
  lemma CrossesAfterFirst(samples: seq<Sample>, start: real)
    requires samples != [] && samples[0].now == start
    ensures Crosses(samples[1..], start) <==> Crosses(samples, start)
  {
    assert samples == [samples[0]] + samples[1..];
    CrossesConcat([samples[0]], samples[1..], start);
  }

  /** A closure held over five frames 0.125 s apart from t = 1.0, then
      an open frame: no click while less than 0.4 s has passed (the first
      four frames), exactly one on the fifth frame, 0.5 s after the onset,
      and the timer cleared by the open frame. */
  lemma LongBlinkScenario()
    ensures var closed := [Sample(true, 1.0), Sample(true, 1.125), Sample(true, 1.25),
                           Sample(true, 1.375), Sample(true, 1.5)];
      && EyeRun(Open, closed[..4]).clicks == 0
      && EyeRun(Open, closed).clicks == 1
      && EyeRun(Open, closed + [Sample(false, 1.625)]) == EyeRunResult(Open, 1)
  {
    var closed := [Sample(true, 1.0), Sample(true, 1.125), Sample(true, 1.25),
                   Sample(true, 1.375), Sample(true, 1.5)];
    SustainedClosure(closed[..4]);
    assert !Crosses(closed[..4][1..], 1.0);
    SustainedClosure(closed);
    assert closed[1..][3].now - 1.0 > LongBlinkDuration;
    EyeRunSnoc(Open, closed, Sample(false, 1.625));
  }

  /** An open frame wipes out the history: what follows behaves as from a
      fresh open eye, so a later sustained closure can click again. */
  lemma ReopenRearms(t: EyeTimer, before: seq<Sample>, now: real, after: seq<Sample>)
    ensures EyeRun(t, before + [Sample(false, now)] + after) ==
      EyeRunResult(EyeRun(Open, after).timer, EyeRun(t, before).clicks + EyeRun(Open, after).clicks)
  {
    var mid := EyeRun(t, before).timer;
    EyeRunAppend(t, before, [Sample(false, now)]);
    assert EyeRun(mid, [Sample(false, now)]) == EyeRunResult(Open, 0);
    EyeRunAppend(t, before + [Sample(false, now)], after);
  }
}
