# Eye tracker: a Dafny model of `EyeTracker`

The eye tracker is a Python process. It reads camera frames and turns two
signals into operating-system input:

- **Gaze.** A gaze estimator predicts a screen point. Exponential smoothing and
  a 2-pixel deadzone turn that point into pointer moves.
- **Blinks.** For each eye, an eye-aspect ratio below 0.22 counts as closed. A
  closure held for more than 0.4 s turns into one left or right click.

A background reader takes the commands `CALIBRATE`, `START` and `STOP` from
standard input and sets two control flags. When calibration is requested, the
frame loop runs a calibration handshake: it releases the camera, runs the
external calibration routine, and takes the camera back. Every frame read ends
with a status record.

The model is split into these modules:

- **`Commands`**: the reader. Covers line stripping, command parsing, the
  effect of each read, and where the reader stops.
- **`EyeAspect`**: the eye-aspect ratio, the closed-eye threshold, and the
  per-face loop that produces a frame's ratios and blink flags.
- **`Blink`**: the per-eye long-blink state machine, for one frame
  (`EyeStep`) and over a run of frames (`EyeRun`).
- **`Gaze`**: the smoothing filter. Covers seeding, blending, truncation to
  pixels, and the deadzone.
- **`Calibration`**: the calibration handshake as a sequence of steps, and
  the camera state those steps leave behind.
- **`Frame`**: one pass of the frame loop, and a finite run of passes.
  - The state is the tracker's fields.
  - Each collaborator's answer is an input: the frame read, the gaze
    estimator, the faces found, the clock, and the outcome of calibrating and
    reopening the camera.
  - What the loop does to the outside world is a sequence of effects: pointer
    moves, clicks, status records and handshake steps.
- **`Tracker`**: the class `EyeTracker`. Its fields are the Python object's
  fields, and its methods update them in place. Each method is proved to
  produce exactly the state and effects that the matching `Frame`, `Gaze`,
  `Blink`, `Calibration` or `Commands` function describes.

The model follows the code in these places:

- **Zero sentinels.** A smoothed point of (0, 0) means "not yet seeded", and a
  closure onset time of 0 means "no closure under way". So a first gaze sample
  at exactly (0, 0) leaves the filter unseeded, and the next sample is copied
  in rather than blended (`Gaze.ZeroSampleLeavesUnseeded`). The rule "P0 then
  P1 gives 0.85·P0 + 0.15·P1" therefore holds only for P0 ≠ (0, 0)
  (`Gaze.TwoSamples`).
- **Landmark exceptions.** Only the gaze branch is inside a `try`
  (tracker.py:151-178). The landmark extractor is called outside it
  (tracker.py:183), so an exception there is not turned into "no signal this
  frame". The model's gaze answer therefore has an exception case
  (`GazeFailed`), and the landmark answer does not.
- **Reopening the camera.** After a release, the capture is always closed. So
  the `finally` branch always reopens it (tracker.py:110-111), whether or not
  the camera was open before. `calibrated` is set only when the routine
  returns normally.
- **Status record.** The `blink_left`/`blink_right` fields carry the click
  latches, not the frame's thresholded blink flags (tracker.py:233-234).
- **Several faces.** When more than one face is reported, the ratios are those
  of the last face. An eye's blink flag is raised if that eye is closed in
  any face (tracker.py:190-197).
- **Closed capture.** A read from a capture that is not open fails
  (`Frame.FrameOk`).

## Model

The reference definitions `Frame.Iteration`, `Frame.FramePhase`,
`Frame.GazePhase`, `Frame.ClickPhase`, `Frame.CalibrationPhase`,
`Frame.RunFrames`, `Commands.ApplyLine`, `Commands.StepRead`,
`Commands.ApplyReads`, `Blink.EyeRun`, `EyeAspect.Readings` and
`Calibration.CameraAfter` carry no contract of their own; the rows of the
`Tracker.EyeTracker` methods that are proved equal to them, and the lemmas
about them, stand for them.

| member | source | states |
|---|---|---|
| Commands.StripLeft | tracker.py:76 | `str.strip` removes leading whitespace: the result is a suffix of the line, everything removed is whitespace, and the result does not start with whitespace |
| Commands.StripRight | tracker.py:76 | the same for trailing whitespace: a prefix of the line, only whitespace removed, and the result does not end with whitespace |
| Commands.Strip | tracker.py:76 | the stripped command neither starts nor ends with whitespace and is no longer than the line |
| Commands.StripPadded | tracker.py:76 | any whitespace around a word, such as the newline `readline` keeps, is removed and gives back exactly the word |
| Commands.StripIdempotent | tracker.py:76 | stripping a second time changes nothing |
| Commands.ApplyPaddedLine | tracker.py:76-84 | `CALIBRATE`, `START` and `STOP` with any whitespace around them set the request flag, set the tracking flag and clear it, respectively, and change nothing else |
| Commands.ApplyOtherLine | tracker.py:76-84 | a line that strips to none of the three commands leaves both flags unchanged |
| Commands.LowerCaseIgnored | tracker.py:77-82 | the comparison is exact and case-sensitive: `start` is ignored |
| Commands.BlankLineIgnored | tracker.py:74-84 | a blank line (`"\n"`) is ignored and, unlike the empty read at end of input, does not end the reader |
| Commands.ReaderStop | tracker.py:71-86 | the reader acts on every read before the first end-of-input or failed read, and on none after it |
| Commands.StepReadFlags | tracker.py:72-86 | a read raises the calibration request exactly when it is a `CALIBRATE` line; tracking becomes true on `START`, false on `STOP`, and is otherwise unchanged |
| Commands.TrackingFollowsLastToggle | tracker.py:70-86 | after a sequence of reads, tracking is the value set by the last `START` or `STOP`, or its earlier value if there was none |
| Commands.CalibrationRequestSticks | tracker.py:70-86 | after a sequence of reads, a calibration is requested exactly when one was already requested or some read was a `CALIBRATE` line; the reader never clears the request |
| EyeAspect.CalculateEar | tracker.py:120-126 | a zero horizontal distance gives exactly 0.0; otherwise the ratio times twice the width equals the sum of the two vertical distances |
| EyeAspect.EarNonNegative | tracker.py:120-126 | the ratio of non-negative distances is non-negative |
| EyeAspect.ThresholdIsStrict | tracker.py:196-197 | `ear < 0.22` is strict: an eye exactly at the threshold is open, and a ratio of 0.0 is closed |
| EyeAspect.DegenerateEyeIsClosed | tracker.py:125 | a zero-width eye reads as closed |
| EyeAspect.ClosedIffNarrow | tracker.py:126 | an eye of positive width is closed exactly when its vertical opening is less than 2 × 0.22 times its width |
| EyeAspect.MeasureEyes | tracker.py:185-197 | the per-face loop yields 0.0 ratios and open eyes for no face; the last face's ratios otherwise; and a blink flag raised when that eye is closed in any face |
| EyeAspect.SingleFaceReadings | tracker.py:190-197 | with the one face the extractor is configured for, each blink flag is exactly the threshold test of the reported ratio |
| EyeAspect.NoFaceReadsOpen | tracker.py:185-190 | losing the face reads as open eyes with ratios 0.0 |
| Blink.EyeStep | tracker.py:204-214 | one frame for one eye: a click exactly when the eye is closed, a closure onset is recorded, more than 0.4 s have passed, and the latch is clear. While the eye stays closed the latch is set exactly when it was set before or this frame clicks, so a frame without a click never changes it. An open eye resets the timer. A first closed frame records the onset without clicking. A recorded onset is kept. The latch is never set without an onset |
| Blink.LatchedClosureIsSilent | tracker.py:208-211 | once latched, a continuous closure issues no further click and stays latched |
| Blink.AtMostOneClickPerClosure | tracker.py:204-211 | whatever the timer's state, a continuous closure clicks at most once, and not at all if already latched |
| Blink.HeldClosure | tracker.py:204-211 | with an onset recorded, a continuous closure keeps the onset. It clicks exactly once if it was not latched and some frame comes more than 0.4 s after the onset, and never otherwise. It ends latched exactly when it was latched before or some frame crossed |
| Blink.SustainedClosure | tracker.py:204-211 | from an open eye, a sustained closure records its first frame's time as the onset. It then issues exactly one click if a later frame comes more than 0.4 s after that, and none otherwise |
| Blink.EyeRunAppend | tracker.py:200-227 | running the machine over two stretches of frames, one after the other, is running it over their concatenation; the clicks add up |
| Blink.EyeRunSnoc | tracker.py:200-227 | the machine over one more frame is one more `EyeStep` |
| Blink.ReopenRearms | tracker.py:212-214 | an open frame wipes out the history: what follows behaves as from a fresh open eye, so a later sustained closure can click again |
| Blink.LongBlinkScenario | tracker.py:200-214 | a left eye closed over five frames 0.125 s apart: no click in the first four (less than 0.4 s), exactly one at 0.5 s, then an open frame clears the timer |
| Gaze.Abs | tracker.py:168-169 | `abs` on pixel differences |
| Gaze.Trunc | tracker.py:164 | `int()` on a float truncates toward zero: the result is within one of the value and not farther from zero |
| Gaze.Blend | tracker.py:161-162 | one axis of the moving average lies between the previous value and the sample, and its distance to the sample shrinks by the factor 0.85 |
| Gaze.BlendWeights | tracker.py:160-162 | the blend is `prev * (1 - SMOOTHING_FACTOR) + raw * SMOOTHING_FACTOR` with the factor 0.15 |
| Gaze.SmoothStep | tracker.py:158-173 | the reported point is the truncated smoothed point. The pointer moves exactly when tracking is on and the point is at least 2 px from the last pointer position on some axis. On a move the last position becomes the point; otherwise it is kept |
| Gaze.SeedThenBlend | tracker.py:158-162 | an unseeded filter copies the sample in unchanged; a seeded one gives 0.85 × previous + 0.15 × sample on each axis |
| Gaze.TwoSamples | tracker.py:158-162 | from the initial state, P0 ≠ (0, 0) then P1 gives P0 and then 0.85·P0 + 0.15·P1 on each axis |
| Gaze.ZeroSampleLeavesUnseeded | tracker.py:158-159 | a first sample at (0, 0) leaves the filter unseeded, so the next one is copied in unblended |
| Gaze.SmoothingIgnoresTracking | tracker.py:158-173 | the smoothed point does not depend on the tracking flag. With tracking off the pointer never moves and the last position is kept |
| Gaze.PointerFollowsGaze | tracker.py:164-173 | while tracking, after every sample the pointer is within 2 px of the reported point on both axes |
| Gaze.SampleIsFixedPoint | tracker.py:158-162 | a smoothed point sitting on the sample stays there |
| Calibration.CalibrationTrace | tracker.py:88-117 | without an estimator nothing happens. With one, the handshake starts with the start record, ends with the end record, and releases the camera exactly when it was open |
| Calibration.CalibratedAfter | tracker.py:89-106 | `calibrated` is set when the routine returns normally and is otherwise kept |
| Calibration.TraceOrder | tracker.py:91-117 | start record before the routine, the routine before the reopen, the reopen before the end record. Each happens exactly once. A release, when there is one, comes before the routine |
| Calibration.CameraHandover | tracker.py:97-112 | the camera is never held while the routine runs. Afterwards it is open exactly when reopening succeeded. Without an estimator it is left alone |
| Calibration.TraceCount | tracker.py:91-117 | each step of the handshake occurs exactly once, the release only when the camera was open |
| Frame.FrameEffectsShape | tracker.py:149-238 | a frame's effects are the move (if any), then the clicks, then a final status record, with no status record before it and no handshake step among them |
| Frame.CalibrationComesFirst | tracker.py:137-139 | a pending request runs the handshake first, and its steps open the pass's effects with no later one. Afterwards the request is cleared and the tracking flag is unchanged |
| Frame.FailedReadEmitsNothing | tracker.py:141-144 | a failed read emits no status record, move or click, and leaves the timers and the smoothing state unchanged |
| Frame.CalibrationPhaseKeeps | tracker.py:137-139 | the calibration step touches neither timer, the smoothing state nor the tracking flag, and emits only handshake steps |
| Frame.WithoutEstimator | tracker.py:137-150 | without an estimator a request is cleared with no handshake, the camera and `calibrated` are kept, and the gaze branch keeps the smoothing state and reports (0, 0) |
| Frame.FrameStatusLast | tracker.py:229-241 | the frame part of a pass ends with its only status record, which carries the click latches, the frame's ratios and the tracking flag; its point is the truncated smoothed point when the gaze gate was open (tracker.py:164) and (0, 0) when it was closed |
| Frame.StatusRecordLast | tracker.py:229-241 | every pass that read a frame ends with exactly one status record. It carries the click latches, the raw ratios and the tracking flag, and its point is the truncated smoothed point when the gaze gate was open (tracker.py:164) and (0, 0) when it was closed |
| Frame.FrameNoInput | tracker.py:167-227 | with tracking off, a frame emits only the status record and changes neither timer nor the last pointer position |
| Frame.InactiveIssuesNoInput | tracker.py:167-227 | while tracking is off, no pass moves the pointer or clicks; both timers and the last pointer position stay as they were |
| Frame.SmoothingOnlyThroughGate | tracker.py:150-162 | the smoothing state changes only when a frame was read and an estimator, features, no estimator blink and a completed calibration are all present. It is then the filter's next state, whether or not tracking is on |
| Frame.ClickPhaseCount | tracker.py:200-227 | while tracking, the click step emits one click of a button exactly when that eye's machine clicks |
| Frame.FrameClickCount | tracker.py:149-238 | the clicks of a frame are those of its click step |
| Frame.CalibClicks | tracker.py:137-139 | the calibration step clicks nothing |
| Frame.IterationClickCount | tracker.py:137-238 | after a successful read, the clicks of a pass are those of its click step |
| Frame.EyesAreIndependent | tracker.py:200-227 | while tracking, each eye's timer is that eye's own machine fed its own blink flag, and the pass clicks a button exactly when that eye's machine does. Both eyes can click in one pass |
| Frame.IterationKeepsCoherence | tracker.py:200-227 | no pass sets a click latch without a recorded onset |
| Frame.SteadyIteration | tracker.py:135-241 | with tracking on, no request pending and the camera open, a pass with a good read stays in that state, and the calibration step does nothing |
| Frame.SteadyFailedRead | tracker.py:141-144 | in the steady state a failed read changes no field and emits nothing, so neither timer moves |
| Frame.LeftRunSnoc | tracker.py:200-214 | the left eye's machine over the samples of one more frame that was read is one more step |
| Frame.LeftEyeStep | tracker.py:135-241 | one steady pass steps the left machine once and adds its click, if any, to the left clicks so far |
| Frame.LeftEyeOverFrames | tracker.py:135-241 | over a run of passes from the steady state, failed reads included, the state stays steady, the left timer is the left machine run over the samples of the frames that were read, and the number of left clicks emitted is the number of clicks the machine issues |
| Frame.LeftSamplesClosed | tracker.py:141-204 | when every frame that was read shows the left eye closed, every sample fed to the left timer is closed |
| Frame.LeftSamplesCrosses | tracker.py:141-204 | the left samples cross 0.4 s after a given time exactly when some frame that was read does; failed reads give no sample |
| Frame.LeftSamplesFirst | tracker.py:141-204 | a first frame that was read gives the first left sample, with its blink flag and time |
| Frame.OneLeftClickPerClosure | tracker.py:135-241 | over a run of passes with tracking on, no calibration pending and the camera open, a left eye that was open and then is closed in every frame that is read, starting with the first, produces exactly one left click if some frame that was read comes more than 0.4 s after the first, and none otherwise; failed reads anywhere in between change nothing |
| Tracker.EyeTracker.constructor | tracker.py:39-63 | the fields start as in `__init__`: timers open, not calibrated, filter unseeded, pointer at (0, 0), tracking off, no request, and the capture open as it opened |
| Tracker.EyeTracker.HandleLine | tracker.py:76-84 | acting on one line changes the control flags as `ApplyLine` says and no other field |
| Tracker.EyeTracker.HandleRead | tracker.py:72-86 | acting on one read changes the control flags as `StepRead` says and no other field |
| Tracker.EyeTracker.ReadInput | tracker.py:70-86 | the reader's loop stops after exactly `ReaderStop(input)` reads and leaves the flags as those reads set them, applied in order |
| Tracker.EyeTracker.Calibrate | tracker.py:88-117 | carries out `CalibrationTrace`, sets `calibrated` as `CalibratedAfter` and the camera as those steps leave it, and changes nothing else |
| Tracker.EyeTracker.TrackGaze | tracker.py:149-178 | the gaze branch reports the point and the move given by `GazePhase`, and updates only the smoothing fields |
| Tracker.EyeTracker.ProcessClicks | tracker.py:200-227 | the click branch issues the clicks and sets the timers given by `ClickPhase`, and changes no other field |
| Tracker.EyeTracker.ServiceCalibration | tracker.py:137-139 | a pending request is served and cleared, as `CalibrationPhase` says |
| Tracker.EyeTracker.ProcessFrame | tracker.py:146-241 | the body after a good read produces the state and effects of `FramePhase` |
| Tracker.EyeTracker.Iterate | tracker.py:137-241 | one pass of the loop produces the state and effects of `Iteration` |
| Tracker.EyeTracker.Run | tracker.py:135-241 | a finite stretch of passes produces the state and effects of `RunFrames` |

## Left out

- These are inputs, not computations. The model covers none of OpenCV's capture and colour conversion, MediaPipe's face mesh, the eyetrax estimator or its 9-point calibration window. The answers they give in a pass (frame read, gaze answer, faces, calibration outcome, reopen outcome) are fields of `FrameInput`.
- The landmark coordinates, their scaling by the image size and `np.linalg.norm` are not modelled. `EyeDistances` holds the three distances as measured values.
- The model uses real numbers, not IEEE floating point. It does not cover rounding, NaN or infinities, including `int()` of a non-finite value.
- `time.time()` is the `now` field of a pass. `time.sleep(0.01)` after a failed read does nothing observable in the model.
- Pointer moves, clicks, status records and calibration records are effects. Their JSON encoding, printing and flushing, and the calls into pyautogui, are not modelled.
- The standard-error diagnostics (tracking started or stopped, clicks, calibration progress, failures) are not modelled, since nothing reads them.
- The reader thread and its concurrency with the frame loop are not modelled. `ReadInput` and the frame loop are separate methods on one object. Commands reaching the loop between passes can be modelled by calling `ReadInput` between calls to `Iterate`. Interleaving within a pass, and the unsynchronised field accesses, are not covered.
- `Run` covers a finite stretch of the infinite `while True` loop. Process exit is not modelled.
- Exceptions from `face_mesh.process`, `cv2.cvtColor` and `pyautogui.click` are not modelled. In the source they escape the loop. The model assumes these calls return normally.
- An exception from `self.cap.release()` during calibration is not modelled. In the source the release sits inside the calibration `try` (tracker.py:95-98). Such an exception would skip the routine, leave `calibrated` unchanged, and still run the `finally` with its reopen and end record. The model assumes the release returns normally, so its trace always contains the call into the routine.
- An exception raised by `pyautogui.moveTo` after the smoothing update is not modelled. In the source it lands in the gaze `try` with the smoothed point and the reported point already set. `GazeFailed` covers only exceptions before any update.
- The import of eyetrax and the construction of its estimator are one flag, `hasEstimator`. The face-mesh settings are covered only by `SingleFaceReadings`, which treats its single-face case as the configured one.
- `pyautogui.size()`, `FAILSAFE` and `PAUSE` have no effect on the modelled behaviour. Their values are not used.
- build.js and scripts/build-python.js, the packaging scripts, are not part of this model.
- Frame.OneLeftClickPerClosure: stated for the left eye only. The right eye's code is the mirror image, and `EyesAreIndependent` states both eyes for one pass. It also assumes tracking stays on, no calibration is requested and the camera stays open during the run, and that the closure starts on the run's first frame, which must be read.
