/** The calibration handshake: with a gaze estimator present, announce the
    start, hand the camera over (release it if it is open), run the blocking
    calibration routine, take the camera back (reopen it if it is not open),
    and announce the end, whether or not the routine raised. Without an
    estimator nothing happens. */
module Calibration {

  /** The steps of the handshake, in the order they are carried out:
      the two status records, the camera release and reopen, and the call
      into the external calibration routine. */
  datatype CalibEvent = EmitStart | ReleaseCam | CallCalib | ReopenCam | EmitEnd

  /** What the handshake does, given whether an estimator exists and whether
      the camera is open when it begins. The outcome of the routine does not
      change the steps, only the `calibrated` flag. */
  function CalibrationTrace(hasEstimator: bool, camOpen: bool): (evs: seq<CalibEvent>)
    ensures !hasEstimator <==> evs == []
    ensures hasEstimator ==> evs[0] == EmitStart && evs[|evs| - 1] == EmitEnd
    ensures ReleaseCam in evs <==> hasEstimator && camOpen
  {
    if !hasEstimator then []
    else [EmitStart] + (if camOpen then [ReleaseCam] else []) + [CallCalib, ReopenCam, EmitEnd]
  }

  /** The state of the camera after some steps, `reopenOk` being whether
      reopening it succeeds. */
  function CameraAfter(open: bool, evs: seq<CalibEvent>, reopenOk: bool): bool
    decreases |evs|
  {
    if evs == [] then open
    else
      var before := CameraAfter(open, evs[..|evs| - 1], reopenOk);
      match evs[|evs| - 1]
      case ReleaseCam => false
      case ReopenCam => reopenOk
      case _ => before
  }

  /** `calibrated` after the handshake: set when the routine returned
      normally, otherwise as it was. */
  function CalibratedAfter(hasEstimator: bool, calibrated: bool, calibOk: bool): (c: bool)
    ensures c <==> calibrated || (hasEstimator && calibOk)
  {
    if hasEstimator && calibOk then true else calibrated
  }

  function Count(evs: seq<CalibEvent>, e: CalibEvent): nat
    decreases |evs|
  {
    if evs == [] then 0 else Count(evs[1..], e) + if evs[0] == e then 1 else 0
  }

  function IndexOf(evs: seq<CalibEvent>, e: CalibEvent): (i: nat)
    requires e in evs
    ensures i < |evs| && evs[i] == e
    ensures forall j :: 0 <= j < i ==> evs[j] != e
    decreases |evs|
  {
    if evs[0] == e then 0 else 1 + IndexOf(evs[1..], e)
  }

  lemma {:induction false} CountAppend(a: seq<CalibEvent>, b: seq<CalibEvent>, e: CalibEvent)
    ensures Count(a + b, e) == Count(a, e) + Count(b, e)
    decreases |a|
  {
    if a == [] {
      assert a + b == b;
    } else {
      assert (a + b)[1..] == a[1..] + b;
      CountAppend(a[1..], b, e);
    }
  }

  lemma CountOne(x: CalibEvent, e: CalibEvent)
    ensures Count([x], e) == if x == e then 1 else 0
  {
    assert [x][1..] == [];
  }

  lemma TraceCount(camOpen: bool, e: CalibEvent)
    ensures Count(CalibrationTrace(true, camOpen), e) ==
      if e == ReleaseCam then (if camOpen then 1 else 0) else 1
  {
    var release: seq<CalibEvent> := if camOpen then [ReleaseCam] else [];
    var evs := CalibrationTrace(true, camOpen);
    assert evs == [EmitStart] + release + [CallCalib] + [ReopenCam] + [EmitEnd];
    CountAppend([EmitStart] + release + [CallCalib] + [ReopenCam], [EmitEnd], e);
    CountAppend([EmitStart] + release + [CallCalib], [ReopenCam], e);
    CountAppend([EmitStart] + release, [CallCalib], e);
    CountAppend([EmitStart], release, e);
    CountOne(EmitStart, e);
    CountOne(CallCalib, e);
    CountOne(ReopenCam, e);
    CountOne(EmitEnd, e);
    CountOne(ReleaseCam, e);
    assert Count(release, e) == if camOpen && e == ReleaseCam then 1 else 0;
  }

  /** The start record precedes the call into the routine, which precedes the
      reopen, which precedes the end record; each happens exactly once; and a
      release, when there is one, comes before the call. */
  lemma TraceOrder(camOpen: bool)
    ensures var evs := CalibrationTrace(true, camOpen);
      && Count(evs, EmitStart) == 1 && Count(evs, CallCalib) == 1
      && Count(evs, ReopenCam) == 1 && Count(evs, EmitEnd) == 1
      && Count(evs, ReleaseCam) == (if camOpen then 1 else 0)
      && IndexOf(evs, EmitStart) < IndexOf(evs, CallCalib) < IndexOf(evs, ReopenCam) < IndexOf(evs, EmitEnd)
      && (camOpen ==> IndexOf(evs, ReleaseCam) < IndexOf(evs, CallCalib))
  {
    var release: seq<CalibEvent> := if camOpen then [ReleaseCam] else [];
    var evs := CalibrationTrace(true, camOpen);
    assert evs == [EmitStart] + release + [CallCalib] + [ReopenCam] + [EmitEnd];
    TraceCount(camOpen, EmitStart);
    TraceCount(camOpen, CallCalib);
    TraceCount(camOpen, ReopenCam);
    TraceCount(camOpen, EmitEnd);
    TraceCount(camOpen, ReleaseCam);
    var r := |release|;
    assert evs[0] == EmitStart && evs[r + 1] == CallCalib && evs[r + 2] == ReopenCam && evs[r + 3] == EmitEnd;
    assert camOpen ==> evs[1] == ReleaseCam;
  }

  /** The camera is never held by the frame loop while the routine runs, and
      afterwards the frame loop holds it exactly when reopening succeeded;
      without an estimator the camera is left alone. */
  lemma CameraHandover(hasEstimator: bool, camOpen: bool, reopenOk: bool)
    ensures var evs := CalibrationTrace(hasEstimator, camOpen);
      forall k :: 0 <= k < |evs| && evs[k] == CallCalib ==> !CameraAfter(camOpen, evs[..k], reopenOk)
    ensures CameraAfter(camOpen, CalibrationTrace(hasEstimator, camOpen), reopenOk) ==
      if hasEstimator then reopenOk else camOpen
  {
    var evs := CalibrationTrace(hasEstimator, camOpen);
    if hasEstimator {
      if camOpen {
        assert evs == [EmitStart, ReleaseCam, CallCalib, ReopenCam, EmitEnd];
        assert evs[..2] == [EmitStart, ReleaseCam];
        assert evs[..1] == [EmitStart];
        assert evs[..0] == [];
        assert CameraAfter(camOpen, evs[..2], reopenOk) == false;
        assert evs[..4] == [EmitStart, ReleaseCam, CallCalib, ReopenCam];
        assert evs[..|evs| - 1] == evs[..4];
      } else {
        assert evs == [EmitStart, CallCalib, ReopenCam, EmitEnd];
        assert evs[..1] == [EmitStart];
        assert evs[..0] == [];
        assert CameraAfter(camOpen, evs[..1], reopenOk) == false;
        assert evs[..3] == [EmitStart, CallCalib, ReopenCam];
        assert evs[..|evs| - 1] == evs[..3];
      }
    }
  }
}
