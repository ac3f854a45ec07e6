/** One iteration of the frame loop, as a function of the tracker's state and
    of what the collaborators return in that iteration: handle a pending
    calibration request, read a frame, smooth the gaze and maybe move the
    pointer, measure both eyes, run both blink timers, and emit a status
    record. */
module Frame {
  import opened Commands
  import opened EyeAspect
  import opened Blink
  import opened Gaze
  import opened Calibration

  datatype Button = Left | Right

  /** What the loop does to the outside world: pointer moves and clicks, the
      per-frame status record, and the steps of a calibration handshake. */
  datatype Effect =
    | Move(x: int, y: int)
    | Click(button: Button)
    | Status(x: int, y: int, blinkLeft: bool, blinkRight: bool,
             rawEarLeft: real, rawEarRight: real, active: bool)
    | Calib(event: CalibEvent)

  /** The gaze estimator's answer for a frame: an exception, or a feature
      vector (present or not), its blink flag and the predicted point. */
  datatype GazeReading = GazeFailed | GazeRead(hasFeatures: bool, blink: bool, rawX: real, rawY: real)

  /** Everything the collaborators contribute to one iteration: the outcome
      of a calibration (used only when one is requested), the frame read, the
      gaze estimator's answer, the faces found by the landmark extractor, and
      the clock. */
  datatype FrameInput = FrameInput(calibOk: bool, reopenOk: bool, readOk: bool,
                                   gaze: GazeReading, faces: seq<Face>, now: real)

  /** The tracker's state fields. */
  datatype TrackerState = TrackerState(left: EyeTimer, right: EyeTimer, calibrated: bool,
                                       smooth: Smoothing, control: Control, camOpen: bool)

  function InitialState(camOpen: bool): TrackerState {
    TrackerState(Open, Open, false, InitialSmoothing, Control(false, false), camOpen)
  }

  datatype Outcome = Outcome(state: TrackerState, effects: seq<Effect>)

  function CalibEffects(evs: seq<CalibEvent>): (effs: seq<Effect>)
    ensures |effs| == |evs|
    ensures forall k :: 0 <= k < |evs| ==> effs[k] == Calib(evs[k])
  {
    seq(|evs|, k requires 0 <= k < |evs| => Calib(evs[k]))
  }

  /** The calibration step: a pending request runs the handshake and is then cleared. */
  function CalibrationPhase(hasEstimator: bool, s: TrackerState, calibOk: bool, reopenOk: bool): Outcome {
    if s.control.calibrationRequested then
      var evs := CalibrationTrace(hasEstimator, s.camOpen);
      Outcome(s.(calibrated := CalibratedAfter(hasEstimator, s.calibrated, calibOk),
                 camOpen := CameraAfter(s.camOpen, evs, reopenOk),
                 control := s.control.(calibrationRequested := false)),
              CalibEffects(evs))
    else Outcome(s, [])
  }

  /** Reading from a capture that is not open fails too. */
  predicate FrameOk(camOpen: bool, i: FrameInput) {
    camOpen && i.readOk
  }

  /** The smoothing filter runs only with an estimator, features present, no
      blink reported by the estimator, and a completed calibration. */
  predicate GazeGate(hasEstimator: bool, calibrated: bool, g: GazeReading) {
    hasEstimator && g.GazeRead? && g.hasFeatures && !g.blink && calibrated
  }

  /** The gaze step: when the gate is closed the smoothing state is kept and the
      reported gaze point is (0, 0). */
  function GazePhase(hasEstimator: bool, s: TrackerState, g: GazeReading): GazeUpdate {
    if GazeGate(hasEstimator, s.calibrated, g) then
      SmoothStep(s.smooth, s.control.trackingActive, g.rawX, g.rawY)
    else GazeUpdate(s.smooth, 0, 0, false)
  }

  function MoveEffects(u: GazeUpdate): seq<Effect> {
    if u.moved then [Move(u.gazeX, u.gazeY)] else []
  }

  datatype ClickOutcome = ClickOutcome(left: EyeTimer, right: EyeTimer, clicks: seq<Effect>)

  /** The click step: both timers advance, left first, only while tracking. */
  function ClickPhase(s: TrackerState, e: EyeReadings, now: real): ClickOutcome {
    if s.control.trackingActive then
      var l := EyeStep(s.left, e.blinkLeft, now);
      var r := EyeStep(s.right, e.blinkRight, now);
      ClickOutcome(l.timer, r.timer,
                   (if l.click then [Click(Left)] else []) + (if r.click then [Click(Right)] else []))
    else ClickOutcome(s.left, s.right, [])
  }

  /** The gaze step, the eye measurement, the click step and the status
      record, after a successful read. */
  function FramePhase(hasEstimator: bool, t: TrackerState, i: FrameInput): Outcome {
    var g := GazePhase(hasEstimator, t, i.gaze);
    var e := Readings(i.faces);
    var k := ClickPhase(t, e, i.now);
    Outcome(t.(smooth := g.smooth, left := k.left, right := k.right),
            MoveEffects(g) + k.clicks
            + [Status(g.gazeX, g.gazeY, k.left.clickTriggered, k.right.clickTriggered,
                      e.earLeft, e.earRight, t.control.trackingActive)])
  }

  /** One iteration of the loop. */
  function Iteration(hasEstimator: bool, s: TrackerState, i: FrameInput): Outcome {
    var c := CalibrationPhase(hasEstimator, s, i.calibOk, i.reopenOk);
    if !FrameOk(c.state.camOpen, i) then c
    else
      var f := FramePhase(hasEstimator, c.state, i);
      Outcome(f.state, c.effects + f.effects)
  }

  /** The state after the calibration step of an iteration. */
  function AfterCalibration(hasEstimator: bool, s: TrackerState, i: FrameInput): TrackerState {
    CalibrationPhase(hasEstimator, s, i.calibOk, i.reopenOk).state
  }

  predicate AllOf<T>(s: seq<T>, p: T -> bool) {
    forall k :: 0 <= k < |s| ==> p(s[k])
  }

  lemma AllOfConcat<T>(a: seq<T>, b: seq<T>, p: T -> bool)
    ensures AllOf(a + b, p) <==> AllOf(a, p) && AllOf(b, p)
  {
    if AllOf(a, p) && AllOf(b, p) {
      forall k | 0 <= k < |a + b| ensures p((a + b)[k]) {
        if k >= |a| {
          assert (a + b)[k] == b[k - |a|];
        }
      }
    }
    if AllOf(a + b, p) {
      forall k | 0 <= k < |a| ensures p(a[k]) {
        assert (a + b)[k] == a[k];
      }
      forall k | 0 <= k < |b| ensures p(b[k]) {
        assert (a + b)[k + |a|] == b[k];
      }
    }
  }

  predicate IsCalib(e: Effect) { e.Calib? }

  predicate NotCalib(e: Effect) { !e.Calib? }

  predicate NotStatus(e: Effect) { !e.Status? }

  /** Neither a pointer move nor a click. */
  predicate NotInput(e: Effect) { !e.Move? && !e.Click? }

  /** The effects of a frame: the move, if any, then the clicks, then the
      status record. */
  lemma FrameEffectsShape(hasEstimator: bool, t: TrackerState, i: FrameInput)
    ensures var f := FramePhase(hasEstimator, t, i);
      var g := GazePhase(hasEstimator, t, i.gaze);
      var k := ClickPhase(t, Readings(i.faces), i.now);
      && |f.effects| > 0
      && f.effects == MoveEffects(g) + k.clicks + [f.effects[|f.effects| - 1]]
      && f.effects[|f.effects| - 1].Status?
      && AllOf(MoveEffects(g) + k.clicks, NotStatus)
      && AllOf(f.effects, NotCalib)
  {
    var f := FramePhase(hasEstimator, t, i);
    var g := GazePhase(hasEstimator, t, i.gaze);
    var k := ClickPhase(t, Readings(i.faces), i.now);
    var st := f.effects[|f.effects| - 1];
    assert AllOf(MoveEffects(g), NotStatus) && AllOf(MoveEffects(g), NotCalib);
    assert AllOf(k.clicks, NotStatus) && AllOf(k.clicks, NotCalib);
    AllOfConcat(MoveEffects(g), k.clicks, NotStatus);
    AllOfConcat(MoveEffects(g), k.clicks, NotCalib);
    AllOfConcat(MoveEffects(g) + k.clicks, [st], NotCalib);
  }

  /** The handshake runs first, when requested, and its steps open the
      iteration's effects, none coming later; afterwards the request is
      cleared and no other control flag has changed. */
  lemma CalibrationComesFirst(hasEstimator: bool, s: TrackerState, i: FrameInput)
    ensures var o := Iteration(hasEstimator, s, i);
      var evs := if s.control.calibrationRequested then CalibrationTrace(hasEstimator, s.camOpen) else [];
      && o.state.control == s.control.(calibrationRequested := false)
      && |evs| <= |o.effects| && o.effects[..|evs|] == CalibEffects(evs)
      && AllOf(o.effects[|evs|..], NotCalib)
  {
    var o := Iteration(hasEstimator, s, i);
    var c := CalibrationPhase(hasEstimator, s, i.calibOk, i.reopenOk);
    var evs := if s.control.calibrationRequested then CalibrationTrace(hasEstimator, s.camOpen) else [];
    assert c.effects == CalibEffects(evs);
    if FrameOk(c.state.camOpen, i) {
      FrameEffectsShape(hasEstimator, c.state, i);
      assert o.effects[|evs|..] == FramePhase(hasEstimator, c.state, i).effects;
    } else {
      assert o.effects[|evs|..] == [];
    }
  }

  /** A failed read emits no status record, no move and no click, and leaves
      the timers and the smoothing state alone. */
  lemma FailedReadEmitsNothing(hasEstimator: bool, s: TrackerState, i: FrameInput)
    requires !FrameOk(AfterCalibration(hasEstimator, s, i).camOpen, i)
    ensures var o := Iteration(hasEstimator, s, i);
      && AllOf(o.effects, IsCalib)
      && o.state.left == s.left && o.state.right == s.right && o.state.smooth == s.smooth
  {
  }

  /** The last element of a concatenation with a non-empty right-hand
      side, and what precedes it. */
  lemma LastOfConcat<T>(a: seq<T>, b: seq<T>)
    requires b != []
    ensures (a + b)[|a + b| - 1] == b[|b| - 1]
    ensures (a + b)[..|a + b| - 1] == a + b[..|b| - 1]
  {
  }

  /** The calibration step touches neither timer, nor the smoothing state,
      nor the tracking flag, and emits only handshake steps. */
  lemma CalibrationPhaseKeeps(hasEstimator: bool, s: TrackerState, calibOk: bool, reopenOk: bool)
    ensures var c := CalibrationPhase(hasEstimator, s, calibOk, reopenOk);
      && c.state.left == s.left && c.state.right == s.right && c.state.smooth == s.smooth
      && c.state.control.trackingActive == s.control.trackingActive
      && AllOf(c.effects, IsCalib) && AllOf(c.effects, NotInput) && AllOf(c.effects, NotStatus)
  {
  }

  /** The frame part of an iteration ends with its one status record. */
  lemma FrameStatusLast(hasEstimator: bool, t: TrackerState, i: FrameInput)
    ensures var f := FramePhase(hasEstimator, t, i);
      && |f.effects| > 0
      && AllOf(f.effects[..|f.effects| - 1], NotStatus)
      && var st := f.effects[|f.effects| - 1];
      && st.Status?
      && st.blinkLeft == f.state.left.clickTriggered && st.blinkRight == f.state.right.clickTriggered
      && st.rawEarLeft == Readings(i.faces).earLeft && st.rawEarRight == Readings(i.faces).earRight
      && st.active == t.control.trackingActive
      && (!GazeGate(hasEstimator, t.calibrated, i.gaze) ==> st.x == 0 && st.y == 0)
      && (GazeGate(hasEstimator, t.calibrated, i.gaze) ==>
            st.x == Trunc(f.state.smooth.smoothX) && st.y == Trunc(f.state.smooth.smoothY))
  {
    var f := FramePhase(hasEstimator, t, i);
    var g := GazePhase(hasEstimator, t, i.gaze);
    var k := ClickPhase(t, Readings(i.faces), i.now);
    FrameEffectsShape(hasEstimator, t, i);
    LastOfConcat(MoveEffects(g) + k.clicks, [f.effects[|f.effects| - 1]]);
  }

  /** A successful read ends with exactly one status record. It carries the
      click latches (not the raw blink flags), the raw ratios of the frame and
      the tracking flag; its point is the truncated smoothed point when the
      gaze gate was open and (0, 0) when it was closed. */
  lemma StatusRecordLast(hasEstimator: bool, s: TrackerState, i: FrameInput)
    requires FrameOk(AfterCalibration(hasEstimator, s, i).camOpen, i)
    ensures var o := Iteration(hasEstimator, s, i);
      var t := AfterCalibration(hasEstimator, s, i);
      && |o.effects| > 0
      && AllOf(o.effects[..|o.effects| - 1], NotStatus)
      && var st := o.effects[|o.effects| - 1];
      && st.Status?
      && st.blinkLeft == o.state.left.clickTriggered && st.blinkRight == o.state.right.clickTriggered
      && st.rawEarLeft == Readings(i.faces).earLeft && st.rawEarRight == Readings(i.faces).earRight
      && st.active == s.control.trackingActive
      && (!GazeGate(hasEstimator, t.calibrated, i.gaze) ==> st.x == 0 && st.y == 0)
      && (GazeGate(hasEstimator, t.calibrated, i.gaze) ==>
            st.x == Trunc(o.state.smooth.smoothX) && st.y == Trunc(o.state.smooth.smoothY))
  {
    var c := CalibrationPhase(hasEstimator, s, i.calibOk, i.reopenOk);
    var f := FramePhase(hasEstimator, c.state, i);
    assert Iteration(hasEstimator, s, i) == Outcome(f.state, c.effects + f.effects);
    FrameStatusLast(hasEstimator, c.state, i);
    CalibrationPhaseKeeps(hasEstimator, s, i.calibOk, i.reopenOk);
    LastOfConcat(c.effects, f.effects);
    AllOfConcat(c.effects, f.effects[..|f.effects| - 1], NotStatus);
  }

  /** The frame part of an iteration with tracking off: only the status
      record, and neither timer nor the last pointer position changes. */
  lemma FrameNoInput(hasEstimator: bool, t: TrackerState, i: FrameInput)
    requires !t.control.trackingActive
    ensures var f := FramePhase(hasEstimator, t, i);
      && AllOf(f.effects, NotInput)
      && f.state.left == t.left && f.state.right == t.right
      && f.state.smooth.lastMouseX == t.smooth.lastMouseX
      && f.state.smooth.lastMouseY == t.smooth.lastMouseY
  {
    var f := FramePhase(hasEstimator, t, i);
    var g := GazePhase(hasEstimator, t, i.gaze);
    var e := Readings(i.faces);
    var k := ClickPhase(t, e, i.now);
    assert MoveEffects(g) == [] && k.clicks == [];
    assert f.effects == [Status(g.gazeX, g.gazeY, k.left.clickTriggered, k.right.clickTriggered,
                                e.earLeft, e.earRight, t.control.trackingActive)];
  }

  /** While tracking is off nothing moves the pointer or clicks, and both
      blink timers and the last pointer position are left as they were. */
  lemma InactiveIssuesNoInput(hasEstimator: bool, s: TrackerState, i: FrameInput)
    requires !s.control.trackingActive
    ensures var o := Iteration(hasEstimator, s, i);
      && AllOf(o.effects, NotInput)
      && o.state.left == s.left && o.state.right == s.right
      && o.state.smooth.lastMouseX == s.smooth.lastMouseX
      && o.state.smooth.lastMouseY == s.smooth.lastMouseY
  {
    var c := CalibrationPhase(hasEstimator, s, i.calibOk, i.reopenOk);
    CalibrationPhaseKeeps(hasEstimator, s, i.calibOk, i.reopenOk);
    if FrameOk(c.state.camOpen, i) {
      var f := FramePhase(hasEstimator, c.state, i);
      assert Iteration(hasEstimator, s, i) == Outcome(f.state, c.effects + f.effects);
      FrameNoInput(hasEstimator, c.state, i);
      AllOfConcat(c.effects, f.effects, NotInput);
    }
  }

  /** Without a gaze estimator a calibration request is cleared with no
      handshake, the camera and `calibrated` are left alone, and the gaze
      branch keeps the smoothing state and reports the point (0, 0). */
  lemma WithoutEstimator(s: TrackerState, i: FrameInput)
    ensures CalibrationPhase(false, s, i.calibOk, i.reopenOk) ==
      Outcome(s.(control := s.control.(calibrationRequested := false)), [])
    ensures GazePhase(false, s, i.gaze) == GazeUpdate(s.smooth, 0, 0, false)
  {
  }

  /** The smoothing state changes only when the gate is open; it is then the
      filter's next state, computed whether or not tracking is on. */
  lemma SmoothingOnlyThroughGate(hasEstimator: bool, s: TrackerState, i: FrameInput)
    ensures var o := Iteration(hasEstimator, s, i);
      var t := AfterCalibration(hasEstimator, s, i);
      && (FrameOk(t.camOpen, i) && GazeGate(hasEstimator, t.calibrated, i.gaze) ==>
            o.state.smooth == SmoothStep(s.smooth, s.control.trackingActive, i.gaze.rawX, i.gaze.rawY).smooth)
      && (!(FrameOk(t.camOpen, i) && GazeGate(hasEstimator, t.calibrated, i.gaze)) ==>
            o.state.smooth == s.smooth)
  {
  }

  function ClickCount(effs: seq<Effect>, b: Button): nat
    decreases |effs|
  {
    if effs == [] then 0
    else ClickCount(effs[..|effs| - 1], b) + if effs[|effs| - 1] == Click(b) then 1 else 0
  }

  lemma {:induction false} ClickCountAppend(a: seq<Effect>, b: seq<Effect>, btn: Button)
    ensures ClickCount(a + b, btn) == ClickCount(a, btn) + ClickCount(b, btn)
    decreases |b|
  {
    if b == [] {
      assert a + b == a;
    } else {
      assert (a + b)[..|a + b| - 1] == a + b[..|b| - 1];
      ClickCountAppend(a, b[..|b| - 1], btn);
    }
  }

  lemma {:induction false} ClickCountNone(effs: seq<Effect>, btn: Button)
    requires AllOf(effs, NotInput)
    ensures ClickCount(effs, btn) == 0
    decreases |effs|
  {
    if effs != [] {
      assert AllOf(effs[..|effs| - 1], NotInput);
      ClickCountNone(effs[..|effs| - 1], btn);
    }
  }

  lemma ClickCountOne(e: Effect, btn: Button)
    ensures ClickCount([e], btn) == if e == Click(btn) then 1 else 0
  {
    assert [e][..0] == [];
  }

  /** The click step emits one click of a button exactly when that eye's
      machine clicks. */
  lemma ClickPhaseCount(t: TrackerState, e: EyeReadings, now: real)
    requires t.control.trackingActive
    ensures var k := ClickPhase(t, e, now);
      && ClickCount(k.clicks, Left) == (if EyeStep(t.left, e.blinkLeft, now).click then 1 else 0)
      && ClickCount(k.clicks, Right) == (if EyeStep(t.right, e.blinkRight, now).click then 1 else 0)
  {
    var l := EyeStep(t.left, e.blinkLeft, now);
    var r := EyeStep(t.right, e.blinkRight, now);
    var lc: seq<Effect> := if l.click then [Click(Left)] else [];
    var rc: seq<Effect> := if r.click then [Click(Right)] else [];
    assert ClickPhase(t, e, now).clicks == lc + rc;
    ClickCountAppend(lc, rc, Left);
    ClickCountAppend(lc, rc, Right);
    ClickCountOne(Click(Left), Left);
    ClickCountOne(Click(Left), Right);
    ClickCountOne(Click(Right), Left);
    ClickCountOne(Click(Right), Right);
  }

  /** The clicks of a frame are those of its click step. */
  lemma FrameClickCount(hasEstimator: bool, t: TrackerState, i: FrameInput, btn: Button)
    ensures ClickCount(FramePhase(hasEstimator, t, i).effects, btn) ==
      ClickCount(ClickPhase(t, Readings(i.faces), i.now).clicks, btn)
  {
    var f := FramePhase(hasEstimator, t, i);
    var g := GazePhase(hasEstimator, t, i.gaze);
    var k := ClickPhase(t, Readings(i.faces), i.now);
    FrameEffectsShape(hasEstimator, t, i);
    var st := f.effects[|f.effects| - 1];
    ClickCountAppend(MoveEffects(g) + k.clicks, [st], btn);
    ClickCountAppend(MoveEffects(g), k.clicks, btn);
    ClickCountOne(st, btn);
    assert AllOf(MoveEffects(g), NotInput) || MoveEffects(g) == [Move(g.gazeX, g.gazeY)];
    if MoveEffects(g) != [] {
      ClickCountOne(Move(g.gazeX, g.gazeY), btn);
    } else {
      ClickCountNone(MoveEffects(g), btn);
    }
  }

  /** The calibration step clicks nothing. */
  lemma CalibClicks(hasEstimator: bool, s: TrackerState, calibOk: bool, reopenOk: bool, btn: Button)
    ensures ClickCount(CalibrationPhase(hasEstimator, s, calibOk, reopenOk).effects, btn) == 0
  {
    CalibrationPhaseKeeps(hasEstimator, s, calibOk, reopenOk);
    ClickCountNone(CalibrationPhase(hasEstimator, s, calibOk, reopenOk).effects, btn);
  }

  /** After a successful read the clicks of an iteration are those of its
      click step. */
  lemma IterationClickCount(hasEstimator: bool, s: TrackerState, i: FrameInput, btn: Button)
    requires FrameOk(AfterCalibration(hasEstimator, s, i).camOpen, i)
    ensures ClickCount(Iteration(hasEstimator, s, i).effects, btn) ==
      ClickCount(ClickPhase(AfterCalibration(hasEstimator, s, i), Readings(i.faces), i.now).clicks, btn)
  {
    var c := CalibrationPhase(hasEstimator, s, i.calibOk, i.reopenOk);
    var f := FramePhase(hasEstimator, c.state, i);
    assert Iteration(hasEstimator, s, i) == Outcome(f.state, c.effects + f.effects);
    ClickCountAppend(c.effects, f.effects, btn);
    CalibClicks(hasEstimator, s, i.calibOk, i.reopenOk, btn);
    FrameClickCount(hasEstimator, c.state, i, btn);
  }

  /** While tracking and reading frames, each eye's timer is that eye's own
      state machine fed with its own blink flag, and the iteration clicks that
      button exactly when the machine does: the two eyes are independent. */
  lemma EyesAreIndependent(hasEstimator: bool, s: TrackerState, i: FrameInput)
    requires s.control.trackingActive
    requires FrameOk(AfterCalibration(hasEstimator, s, i).camOpen, i)
    ensures var o := Iteration(hasEstimator, s, i);
      var l := EyeStep(s.left, Readings(i.faces).blinkLeft, i.now);
      var r := EyeStep(s.right, Readings(i.faces).blinkRight, i.now);
      && o.state.left == l.timer && o.state.right == r.timer
      && ClickCount(o.effects, Left) == (if l.click then 1 else 0)
      && ClickCount(o.effects, Right) == (if r.click then 1 else 0)
  {
    var t := AfterCalibration(hasEstimator, s, i);
    CalibrationPhaseKeeps(hasEstimator, s, i.calibOk, i.reopenOk);
    assert Iteration(hasEstimator, s, i).state == FramePhase(hasEstimator, t, i).state;
    IterationClickCount(hasEstimator, s, i, Left);
    IterationClickCount(hasEstimator, s, i, Right);
    ClickPhaseCount(t, Readings(i.faces), i.now);
  }

  predicate StateCoherent(s: TrackerState) {
    Coherent(s.left) && Coherent(s.right)
  }

  /** No iteration sets a latch without a recorded onset. */
  lemma IterationKeepsCoherence(hasEstimator: bool, s: TrackerState, i: FrameInput)
    requires StateCoherent(s)
    ensures StateCoherent(Iteration(hasEstimator, s, i).state)
  {
  }

  /** Tracking on, no calibration pending, and the camera open. */
  predicate SteadyState(s: TrackerState) {
    s.control.trackingActive && !s.control.calibrationRequested && s.camOpen
  }

  /** An iteration started in the steady state with a good read stays in it. */
  lemma SteadyIteration(hasEstimator: bool, s: TrackerState, i: FrameInput)
    requires SteadyState(s) && i.readOk
    ensures AfterCalibration(hasEstimator, s, i) == s
    ensures Iteration(hasEstimator, s, i).state.control == s.control
    ensures Iteration(hasEstimator, s, i).state.camOpen
  {
  }

  /** Iterations run one after another. */
  function RunFrames(hasEstimator: bool, s: TrackerState, inputs: seq<FrameInput>): Outcome
    decreases |inputs|
  {
    if inputs == [] then Outcome(s, [])
    else
      var before := RunFrames(hasEstimator, s, inputs[..|inputs| - 1]);
      var o := Iteration(hasEstimator, before.state, inputs[|inputs| - 1]);
      Outcome(o.state, before.effects + o.effects)
  }

  /** In the steady state a failed read does nothing at all: the pass ends
      before either timer is touched. */
  lemma SteadyFailedRead(hasEstimator: bool, s: TrackerState, i: FrameInput)
    requires SteadyState(s) && !i.readOk
    ensures Iteration(hasEstimator, s, i) == Outcome(s, [])
  {
  }

  /** What the left eye's timer is fed: the left blink flag and the time of
      each frame that was read. A frame whose read fails never reaches the
      click step, so it contributes no sample. */
  function LeftSamples(inputs: seq<FrameInput>): (ss: seq<Sample>)
    ensures |ss| <= |inputs|
    decreases |inputs|
  {
    if inputs == [] then []
    else
      var last := inputs[|inputs| - 1];
      LeftSamples(inputs[..|inputs| - 1]) +
        (if last.readOk then [Sample(Readings(last.faces).blinkLeft, last.now)] else [])
  }

  lemma LeftSamplesSnoc(inputs: seq<FrameInput>)
    requires inputs != []
    ensures var last := inputs[|inputs| - 1];
      LeftSamples(inputs) == LeftSamples(inputs[..|inputs| - 1]) +
        (if last.readOk then [Sample(Readings(last.faces).blinkLeft, last.now)] else [])
  {
  }

  /** The left eye's machine over one more frame that was read. */
  lemma LeftRunSnoc(t: EyeTimer, inputs: seq<FrameInput>)
    requires inputs != [] && inputs[|inputs| - 1].readOk
    ensures var last := inputs[|inputs| - 1];
      var r := EyeRun(t, LeftSamples(inputs[..|inputs| - 1]));
      var u := EyeStep(r.timer, Readings(last.faces).blinkLeft, last.now);
      EyeRun(t, LeftSamples(inputs)) == EyeRunResult(u.timer, r.clicks + if u.click then 1 else 0)
  {
    var last := inputs[|inputs| - 1];
    LeftSamplesSnoc(inputs);
    EyeRunSnoc(t, LeftSamples(inputs[..|inputs| - 1]), Sample(Readings(last.faces).blinkLeft, last.now));
  }

  /** The last iteration of a run of frames. */
  lemma RunFramesSnoc(hasEstimator: bool, s: TrackerState, inputs: seq<FrameInput>)
    requires inputs != []
    ensures var before := RunFrames(hasEstimator, s, inputs[..|inputs| - 1]);
      var o := Iteration(hasEstimator, before.state, inputs[|inputs| - 1]);
      RunFrames(hasEstimator, s, inputs) == Outcome(o.state, before.effects + o.effects)
  {
  }

  /** One steady iteration with a good read advances the left eye's machine
      by one frame and adds its click, if any, to the left clicks so far. */
  lemma LeftEyeStep(hasEstimator: bool, before: Outcome, timer: EyeTimer, clicks: nat, last: FrameInput)
    requires SteadyState(before.state) && last.readOk
    requires before.state.left == timer && ClickCount(before.effects, Left) == clicks
    ensures var o := Iteration(hasEstimator, before.state, last);
      var u := EyeStep(timer, Readings(last.faces).blinkLeft, last.now);
      && SteadyState(o.state) && o.state.left == u.timer
      && ClickCount(before.effects + o.effects, Left) == clicks + (if u.click then 1 else 0)
  {
    var o := Iteration(hasEstimator, before.state, last);
    SteadyIteration(hasEstimator, before.state, last);
    EyesAreIndependent(hasEstimator, before.state, last);
    ClickCountAppend(before.effects, o.effects, Left);
  }

  /** Over a run of iterations from the steady state, failed reads included,
      the state stays steady, the left timer is the left eye's machine run
      over the samples of the frames that were read, and the number of left
      clicks emitted is the number of clicks the machine issues. */
  lemma {:induction false} LeftEyeOverFrames(hasEstimator: bool, s: TrackerState, inputs: seq<FrameInput>)
    requires SteadyState(s)
    ensures var o := RunFrames(hasEstimator, s, inputs);
      && SteadyState(o.state)
      && o.state.left == EyeRun(s.left, LeftSamples(inputs)).timer
      && ClickCount(o.effects, Left) == EyeRun(s.left, LeftSamples(inputs)).clicks
    decreases |inputs|
  {
    if inputs != [] {
      var front, last := inputs[..|inputs| - 1], inputs[|inputs| - 1];
      var before := RunFrames(hasEstimator, s, front);
      var mid := EyeRun(s.left, LeftSamples(front));
      LeftEyeOverFrames(hasEstimator, s, front);
      RunFramesSnoc(hasEstimator, s, inputs);
      if last.readOk {
        LeftEyeStep(hasEstimator, before, mid.timer, mid.clicks, last);
        LeftRunSnoc(s.left, inputs);
      } else {
        SteadyFailedRead(hasEstimator, before.state, last);
        LeftSamplesSnoc(inputs);
        assert LeftSamples(inputs) == LeftSamples(front) + [];
        assert LeftSamples(front) + [] == LeftSamples(front);
        assert before.effects + [] == before.effects;
      }
    }
  }

  /** Some frame that was read comes more than the long-blink duration
      after `start`. */
  predicate LateRead(inputs: seq<FrameInput>, start: real) {
    exists k :: 0 <= k < |inputs| && inputs[k].readOk && inputs[k].now - start > LongBlinkDuration
  }

  lemma LateReadSnoc(inputs: seq<FrameInput>, start: real)
    requires inputs != []
    ensures var last := inputs[|inputs| - 1];
      LateRead(inputs, start) <==>
        LateRead(inputs[..|inputs| - 1], start) || (last.readOk && last.now - start > LongBlinkDuration)
  {
    var front := inputs[..|inputs| - 1];
    if LateRead(front, start) {
      var k :| 0 <= k < |front| && front[k].readOk && front[k].now - start > LongBlinkDuration;
      assert inputs[k] == front[k];
    }
    if LateRead(inputs, start) {
      var k :| 0 <= k < |inputs| && inputs[k].readOk && inputs[k].now - start > LongBlinkDuration;
      if k < |front| {
        assert front[k] == inputs[k];
      }
    }
  }

  /** If every frame that was read shows the left eye closed, so do all
      the left samples. */
  lemma {:induction false} LeftSamplesClosed(inputs: seq<FrameInput>)
    requires forall k :: 0 <= k < |inputs| && inputs[k].readOk ==> Readings(inputs[k].faces).blinkLeft
    ensures AllClosed(LeftSamples(inputs))
    decreases |inputs|
  {
    if inputs != [] {
      var front := inputs[..|inputs| - 1];
      assert forall k :: 0 <= k < |front| ==> front[k] == inputs[k];
      LeftSamplesClosed(front);
      LeftSamplesSnoc(inputs);
    }
  }

  /** The left samples cross the long-blink duration after `start` exactly
      when some frame that was read does. */
  lemma {:induction false} LeftSamplesCrosses(inputs: seq<FrameInput>, start: real)
    ensures Crosses(LeftSamples(inputs), start) <==> LateRead(inputs, start)
    decreases |inputs|
  {
    if inputs != [] {
      var front, last := inputs[..|inputs| - 1], inputs[|inputs| - 1];
      var tail: seq<Sample> := if last.readOk then [Sample(Readings(last.faces).blinkLeft, last.now)] else [];
      LeftSamplesCrosses(front, start);
      LeftSamplesSnoc(inputs);
      CrossesConcat(LeftSamples(front), tail, start);
      LateReadSnoc(inputs, start);
      assert Crosses(tail, start) <==> last.readOk && last.now - start > LongBlinkDuration by {
        if last.readOk {
          assert tail[0].now == last.now;
        }
      }
    } else {
      assert !Crosses([], start);
    }
  }

  /** A first frame that was read gives the first left sample. */
  lemma {:induction false} LeftSamplesFirst(inputs: seq<FrameInput>)
    requires |inputs| > 0 && inputs[0].readOk
    ensures |LeftSamples(inputs)| > 0
    ensures LeftSamples(inputs)[0] == Sample(Readings(inputs[0].faces).blinkLeft, inputs[0].now)
    decreases |inputs|
  {
    var front := inputs[..|inputs| - 1];
    LeftSamplesSnoc(inputs);
    if |inputs| > 1 {
      assert front[0] == inputs[0];
      LeftSamplesFirst(front);
    } else {
      assert front == [];
    }
  }

  /** Exactly one left click per sustained closure, at the level of the
      loop: from the steady state with the left eye open, if every frame that
      is read shows the left eye closed, starting with the first, the run
      produces one left click when some frame that was read comes more than
      0.4 s after the first, and none otherwise. Frames whose read fails may
      come anywhere in between and change nothing. */
  lemma OneLeftClickPerClosure(hasEstimator: bool, s: TrackerState, inputs: seq<FrameInput>)
    requires SteadyState(s) && s.left == Open
    requires |inputs| > 0 && inputs[0].readOk && inputs[0].now != 0.0
    requires forall k :: 0 <= k < |inputs| && inputs[k].readOk ==> Readings(inputs[k].faces).blinkLeft
    ensures ClickCount(RunFrames(hasEstimator, s, inputs).effects, Left) ==
      if LateRead(inputs, inputs[0].now) then 1 else 0
  {
    var ss := LeftSamples(inputs);
    LeftEyeOverFrames(hasEstimator, s, inputs);
    LeftSamplesClosed(inputs);
    LeftSamplesFirst(inputs);
    LeftSamplesCrosses(inputs, inputs[0].now);
    CrossesAfterFirst(ss, inputs[0].now);
    SustainedClosure(ss);
  }
}
