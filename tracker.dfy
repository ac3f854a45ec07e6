/** The tracker object: the state fields the frame loop and the command reader
    update in place, and the methods that update them. Each method is proved
    to leave the object in the state the matching function of the model
    describes. */
module Tracker {
  import opened Commands
  import opened EyeAspect
  import opened Blink
  import opened Gaze
  import opened Calibration
  import opened Frame

  class EyeTracker {
    /** Whether the gaze estimator library loaded and its estimator was
        constructed. */
    const hasEstimator: bool

    var blinkStartLeft: real
    var blinkStartRight: real
    var clickTriggeredLeft: bool
    var clickTriggeredRight: bool
    var calibrated: bool

    var smoothX: real
    var smoothY: real
    var lastMouseX: int
    var lastMouseY: int

    var trackingActive: bool
    var calibrationRequested: bool

    /** Whether the video capture is open. */
    var camOpen: bool

    /** The fields as one value. */
    function State(): TrackerState
      reads this
    {
      TrackerState(EyeTimer(blinkStartLeft, clickTriggeredLeft),
                   EyeTimer(blinkStartRight, clickTriggeredRight),
                   calibrated,
                   Smoothing(smoothX, smoothY, lastMouseX, lastMouseY),
                   Control(trackingActive, calibrationRequested),
                   camOpen)
    }

    /** `cameraOpened` is whether opening the capture succeeded. */
    constructor (hasEstimator: bool, cameraOpened: bool)
      ensures this.hasEstimator == hasEstimator
      ensures State() == InitialState(cameraOpened)
    {
      this.hasEstimator := hasEstimator;
      blinkStartLeft, blinkStartRight := 0.0, 0.0;
      clickTriggeredLeft, clickTriggeredRight := false, false;
      calibrated := false;
      smoothX, smoothY := 0.0, 0.0;
      lastMouseX, lastMouseY := 0, 0;
      trackingActive, calibrationRequested := false, false;
      camOpen := cameraOpened;
    }

    /** One line the reader acts on. */
    method HandleLine(line: string)
      modifies this
      ensures State() == old(State()).(control := ApplyLine(old(State()).control, line))
    {
      var cmd := Strip(line);
      if cmd == "CALIBRATE" {
        calibrationRequested := true;
      } else if cmd == "START" {
        trackingActive := true;
      } else if cmd == "STOP" {
        trackingActive := false;
      }
    }

    /** The reader acting on the result of one read. */
    method HandleRead(r: Read)
      modifies this
      ensures State() == old(State()).(control := StepRead(old(State()).control, r))
    {
      if r.Line? {
        HandleLine(r.text);
      }
    }

    /** The reader's loop over the results of successive reads: it stops at
        end of input or at a failed read and acts on every line before. */
    method ReadInput(input: seq<Read>) returns (consumed: nat)
      modifies this
      ensures consumed == ReaderStop(input)
      ensures State() == old(State()).(control := ApplyReads(old(State()).control, input[..consumed]))
    {
      ghost var s0 := State();
      consumed := 0;
      assert input[0..] == input;
      while consumed < |input| && !EndsReader(input[consumed])
        invariant consumed <= |input|
        invariant ReaderStop(input) == consumed + ReaderStop(input[consumed..])
        invariant State() == s0.(control := ApplyReads(s0.control, input[..consumed]))
      {
        HandleRead(input[consumed]);
        ApplyReadsStep(s0.control, input, consumed);
        ReaderStopStep(input, consumed);
        consumed := consumed + 1;
      }
      assert ReaderStop(input[consumed..]) == 0;
    }

    /** The calibration handshake; `calibOk` is whether the routine returned
        normally, `reopenOk` whether reopening the capture succeeded. */
    method Calibrate(calibOk: bool, reopenOk: bool) returns (events: seq<CalibEvent>)
      modifies this
      ensures events == CalibrationTrace(hasEstimator, old(camOpen))
      ensures State() == old(State()).(calibrated := CalibratedAfter(hasEstimator, old(calibrated), calibOk),
                                       camOpen := CameraAfter(old(camOpen), events, reopenOk))
    {
      events := [];
      if hasEstimator {
        events := events + [EmitStart];
        assert CameraAfter(old(camOpen), events, reopenOk) == camOpen;
        if camOpen {
          camOpen := false;
          events := events + [ReleaseCam];
        }
        assert CameraAfter(old(camOpen), events, reopenOk) == camOpen;
        events := events + [CallCalib];
        if calibOk {
          calibrated := true;
        }
        assert CameraAfter(old(camOpen), events, reopenOk) == camOpen;
        if !camOpen {
          camOpen := reopenOk;
          events := events + [ReopenCam];
        }
        assert CameraAfter(old(camOpen), events, reopenOk) == camOpen;
        events := events + [EmitEnd];
      }
    }

    /** The gaze branch: returns the gaze point reported in the status record
        and whether the pointer was moved there. */
    method TrackGaze(gaze: GazeReading) returns (gazeX: int, gazeY: int, moved: bool)
      modifies this
      ensures var u := GazePhase(hasEstimator, old(State()), gaze);
        gazeX == u.gazeX && gazeY == u.gazeY && moved == u.moved &&
        State() == old(State()).(smooth := u.smooth)
    {
      gazeX, gazeY, moved := 0, 0, false;
      if hasEstimator {
        match gaze
        case GazeFailed =>
        case GazeRead(hasFeatures, blink, rawX, rawY) =>
          if hasFeatures && !blink && calibrated {
            if smoothX == 0.0 && smoothY == 0.0 {
              smoothX, smoothY := rawX, rawY;
            } else {
              smoothX, smoothY := Blend(smoothX, rawX), Blend(smoothY, rawY);
            }
            gazeX, gazeY := Trunc(smoothX), Trunc(smoothY);
            if trackingActive {
              var dx := Abs(gazeX - lastMouseX);
              var dy := Abs(gazeY - lastMouseY);
              if dx >= Deadzone || dy >= Deadzone {
                moved := true;
                lastMouseX, lastMouseY := gazeX, gazeY;
              }
            }
          }
      }
    }

    /** The click branch, left eye first; returns the clicks issued. */
    method ProcessClicks(eyes: EyeReadings, now: real) returns (clicks: seq<Effect>)
      modifies this
      ensures var k := ClickPhase(old(State()), eyes, now);
        clicks == k.clicks && State() == old(State()).(left := k.left, right := k.right)
    {
      clicks := [];
      if trackingActive {
        ghost var l := EyeStep(old(State()).left, eyes.blinkLeft, now);
        if eyes.blinkLeft {
          if blinkStartLeft == 0.0 {
            blinkStartLeft := now;
          } else if now - blinkStartLeft > LongBlinkDuration {
            if !clickTriggeredLeft {
              clicks := clicks + [Click(Left)];
              clickTriggeredLeft := true;
            }
          }
        } else {
          blinkStartLeft := 0.0;
          clickTriggeredLeft := false;
        }
        assert EyeTimer(blinkStartLeft, clickTriggeredLeft) == l.timer;
        assert clicks == if l.click then [Click(Left)] else [];
        if eyes.blinkRight {
          if blinkStartRight == 0.0 {
            blinkStartRight := now;
          } else if now - blinkStartRight > LongBlinkDuration {
            if !clickTriggeredRight {
              clicks := clicks + [Click(Right)];
              clickTriggeredRight := true;
            }
          }
        } else {
          blinkStartRight := 0.0;
          clickTriggeredRight := false;
        }
      }
    }

    /** The calibration step of an iteration: a pending calibration request is served
        and cleared. */
    method ServiceCalibration(calibOk: bool, reopenOk: bool) returns (effects: seq<Effect>)
      modifies this
      ensures var c := CalibrationPhase(hasEstimator, old(State()), calibOk, reopenOk);
        State() == c.state && effects == c.effects
    {
      effects := [];
      if calibrationRequested {
        var events := Calibrate(calibOk, reopenOk);
        effects := CalibEffects(events);
        calibrationRequested := false;
      }
    }

    /** The rest of an iteration after a frame was read: the gaze step, the
        eye measurement, the click step and the status record. */
    method ProcessFrame(input: FrameInput) returns (effects: seq<Effect>)
      modifies this
      ensures var f := FramePhase(hasEstimator, old(State()), input);
        State() == f.state && effects == f.effects
    {
      ghost var g := GazePhase(hasEstimator, State(), input.gaze);
      ghost var k := ClickPhase(State(), Readings(input.faces), input.now);
      var gazeX, gazeY, moved := TrackGaze(input.gaze);
      effects := if moved then [Move(gazeX, gazeY)] else [];
      var eyes := MeasureEyes(input.faces);
      assert ClickPhase(State(), eyes, input.now) == k;
      var clicks := ProcessClicks(eyes, input.now);
      effects := effects + clicks
        + [Status(gazeX, gazeY, clickTriggeredLeft, clickTriggeredRight,
                  eyes.earLeft, eyes.earRight, trackingActive)];
    }

    /** One pass of the frame loop's body; returns what it emitted. A frame
        that cannot be read ends the pass after the calibration step. */
    method Iterate(input: FrameInput) returns (effects: seq<Effect>)
      modifies this
      ensures State() == Iteration(hasEstimator, old(State()), input).state
      ensures effects == Iteration(hasEstimator, old(State()), input).effects
    {
      effects := ServiceCalibration(input.calibOk, input.reopenOk);
      if camOpen && input.readOk {
        var more := ProcessFrame(input);
        effects := effects + more;
      }
    }

    /** The frame loop over a finite stretch of iterations. */
    method Run(inputs: seq<FrameInput>) returns (effects: seq<Effect>)
      modifies this
      ensures State() == RunFrames(hasEstimator, old(State()), inputs).state
      ensures effects == RunFrames(hasEstimator, old(State()), inputs).effects
    {
      effects := [];
      for n := 0 to |inputs|
        invariant State() == RunFrames(hasEstimator, old(State()), inputs[..n]).state
        invariant effects == RunFrames(hasEstimator, old(State()), inputs[..n]).effects
      {
        var more := Iterate(inputs[n]);
        effects := effects + more;
        assert inputs[..n + 1][..n] == inputs[..n];
      }
      assert inputs[..|inputs|] == inputs;
    }
  }
}
