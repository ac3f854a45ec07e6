/** The command channel of the tracker: a background reader takes one line at a
    time from standard input, strips it, and turns the three recognised commands
    into changes of the two control flags. Other lines are ignored; end of input
    or a failed read ends the reader. */
module Commands {

  datatype Option<T> = None | Some(value: T)

  /** The characters Python's `str.strip()` removes: those for which
      `str.isspace()` holds. */
  predicate IsSpace(c: char) {
    || ('\t' <= c <= '\r')
    || ('\U{1C}' <= c <= '\U{1F}')
    || c == ' ' || c == '\U{85}' || c == '\U{A0}' || c == '\U{1680}'
    || ('\U{2000}' <= c <= '\U{200A}')
    || c == '\U{2028}' || c == '\U{2029}' || c == '\U{202F}' || c == '\U{205F}' || c == '\U{3000}'
  }

  predicate AllSpace(s: string) {
    forall i :: 0 <= i < |s| ==> IsSpace(s[i])
  }

  /** Drops leading whitespace: the result is a suffix of `s`, everything cut
      off is whitespace, and the result does not start with whitespace. */
  function StripLeft(s: string): (r: string)
    ensures |r| <= |s| && r == s[|s| - |r|..]
    ensures forall i :: 0 <= i < |s| - |r| ==> IsSpace(s[i])
    ensures r != [] ==> !IsSpace(r[0])
  {
    if s != [] && IsSpace(s[0]) then StripLeft(s[1..]) else s
  }

  /** Drops trailing whitespace: the result is a prefix of `s`, everything cut
      off is whitespace, and the result does not end with whitespace. */
  function StripRight(s: string): (r: string)
    ensures |r| <= |s| && r == s[..|r|]
    ensures forall i :: |r| <= i < |s| ==> IsSpace(s[i])
    ensures r != [] ==> !IsSpace(r[|r| - 1])
  {
    if s != [] && IsSpace(s[|s| - 1]) then StripRight(s[..|s| - 1]) else s
  }

  /** `str.strip()`: the result neither starts nor ends with whitespace. */
  function Strip(s: string): (r: string)
    ensures |r| <= |s|
    ensures r != [] ==> !IsSpace(r[0]) && !IsSpace(r[|r| - 1])
  {
    StripRight(StripLeft(s))
  }

  lemma {:induction false} StripLeftSpaces(a: string, w: string)
    requires AllSpace(a)
    requires w == [] || !IsSpace(w[0])
    ensures StripLeft(a + w) == w
  {
    if a == [] {
      assert a + w == w;
    } else {
      assert (a + w)[1..] == a[1..] + w;
      StripLeftSpaces(a[1..], w);
    }
  }

  lemma {:induction false} StripRightSpaces(w: string, b: string)
    requires AllSpace(b)
    requires w == [] || !IsSpace(w[|w| - 1])
    ensures StripRight(w + b) == w
  {
    if b == [] {
      assert w + b == w;
    } else {
      assert (w + b)[..|w + b| - 1] == w + b[..|b| - 1];
      StripRightSpaces(w, b[..|b| - 1]);
    }
  }

  /** Whatever whitespace surrounds a word, stripping gives back the word. */
  lemma {:induction false} StripPadded(a: string, w: string, b: string)
    requires AllSpace(a) && AllSpace(b)
    requires w == [] || (!IsSpace(w[0]) && !IsSpace(w[|w| - 1]))
    ensures Strip(a + w + b) == w
  {
    if w == [] {
      assert a + w + b == (a + b) + [];
      StripLeftSpaces(a + b, []);
    } else {
      assert a + w + b == a + (w + b);
      StripLeftSpaces(a, w + b);
      StripRightSpaces(w, b);
    }
  }

  /** Stripping twice is stripping once. */
  lemma {:induction false} StripIdempotent(s: string)
    ensures Strip(Strip(s)) == Strip(s)
  {
    var w := Strip(s);
    assert StripLeft(w) == w;
    assert StripRight(w) == w;
  }

  datatype Command = Calibrate | Start | Stop | Other

  /** The comparison chain of the reader, after stripping; case-sensitive. */
  function Parse(line: string): Command {
    var cmd := Strip(line);
    if cmd == "CALIBRATE" then Calibrate
    else if cmd == "START" then Start
    else if cmd == "STOP" then Stop
    else Other
  }

  /** The control flags the reader writes. */
  datatype Control = Control(trackingActive: bool, calibrationRequested: bool)

  /** The effect of one line that the reader acts on. */
  function ApplyLine(c: Control, line: string): Control {
    match Parse(line)
    case Calibrate => c.(calibrationRequested := true)
    case Start => c.(trackingActive := true)
    case Stop => c.(trackingActive := false)
    case Other => c
  }

  /** A recognised command surrounded by any whitespace (a trailing newline,
      a carriage return, indentation) has its effect; every other line, once
      stripped, leaves both flags as they were. */
  lemma {:induction false} ApplyPaddedLine(c: Control, a: string, b: string)
    requires AllSpace(a) && AllSpace(b)
    ensures ApplyLine(c, a + "CALIBRATE" + b) == c.(calibrationRequested := true)
    ensures ApplyLine(c, a + "START" + b) == c.(trackingActive := true)
    ensures ApplyLine(c, a + "STOP" + b) == c.(trackingActive := false)
  {
    StripPadded(a, "CALIBRATE", b);
    StripPadded(a, "START", b);
    StripPadded(a, "STOP", b);
  }

  lemma ApplyOtherLine(c: Control, line: string)
    requires Strip(line) != "CALIBRATE" && Strip(line) != "START" && Strip(line) != "STOP"
    ensures ApplyLine(c, line) == c
  {
  }

  /** The match is exact and case-sensitive: other spellings are ignored. */
  lemma LowerCaseIgnored(c: Control)
    ensures ApplyLine(c, "start\n") == c
  {
    assert Strip("start\n") == "start" by {
      assert "start\n" == [] + "start" + "\n";
      StripPadded([], "start", "\n");
    }
    assert "start" != "START" by {
      assert "start"[0] != "START"[0];
    }
    assert |"start"| != |"CALIBRATE"| && |"start"| != |"STOP"|;
  }

  /** A blank line strips to the empty string and is ignored; it does not
      end the reader (see EndsReader). */
  lemma BlankLineIgnored(c: Control)
    ensures ApplyLine(c, "\n") == c
    ensures !EndsReader(Line("\n"))
  {
    assert "\n" == [] + [] + "\n";
    StripPadded([], [], "\n");
  }

  /** One result of `sys.stdin.readline()`: a line (with its newline, or the
      empty string at end of input) or an exception. */
  datatype Read = Line(text: string) | ReadFailure

  /** End of input (an empty read) and a failed read both end the reader; a
      blank line "\n" does not. */
  predicate EndsReader(r: Read) {
    r.ReadFailure? || r.text == ""
  }

  /** How many reads the reader acts on before it stops. */
  function ReaderStop(input: seq<Read>): (n: nat)
    ensures n <= |input|
    ensures forall k :: 0 <= k < n ==> !EndsReader(input[k])
    ensures n < |input| ==> EndsReader(input[n])
  {
    if input == [] || EndsReader(input[0]) then 0 else 1 + ReaderStop(input[1..])
  }

  /** The flags after acting on `input` in order. */
  function ApplyReads(c: Control, input: seq<Read>): Control
    decreases |input|
  {
    if input == [] then c
    else StepRead(ApplyReads(c, input[..|input| - 1]), input[|input| - 1])
  }

  lemma ReaderStopStep(input: seq<Read>, n: nat)
    requires n < |input| && !EndsReader(input[n])
    ensures ReaderStop(input[n..]) == 1 + ReaderStop(input[n + 1..])
  {
    assert input[n..][1..] == input[n + 1..];
  }

  /** Acting on one more read. */
  lemma ApplyReadsStep(c: Control, input: seq<Read>, n: nat)
    requires n < |input|
    ensures ApplyReads(c, input[..n + 1]) == StepRead(ApplyReads(c, input[..n]), input[n])
  {
    assert input[..n + 1][..n] == input[..n];
  }

  function StepRead(c: Control, r: Read): Control {
    match r
    case Line(t) => ApplyLine(c, t)
    case ReadFailure => c
  }

  lemma StepReadFlags(c: Control, r: Read)
    ensures StepRead(c, r).calibrationRequested == (c.calibrationRequested || IsCalibrateLine(r))
    ensures StepRead(c, r).trackingActive ==
      if r.Line? && Parse(r.text) == Start then true
      else if r.Line? && Parse(r.text) == Stop then false
      else c.trackingActive
  {
  }

  /** The value set by the last START or STOP line, if there is one. */
  function LastToggle(input: seq<Read>): Option<bool>
    decreases |input|
  {
    if input == [] then None
    else
      var r := input[|input| - 1];
      if r.Line? && Parse(r.text) == Start then Some(true)
      else if r.Line? && Parse(r.text) == Stop then Some(false)
      else LastToggle(input[..|input| - 1])
  }

  predicate IsCalibrateLine(r: Read) {
    r.Line? && Parse(r.text) == Calibrate
  }

  /** Tracking is decided by the last START or STOP read; with neither, it
      keeps its earlier value. */
  lemma {:induction false} TrackingFollowsLastToggle(c: Control, input: seq<Read>)
    ensures ApplyReads(c, input).trackingActive ==
      match LastToggle(input) case None => c.trackingActive case Some(b) => b
    decreases |input|
  {
    if input != [] {
      var front, last := input[..|input| - 1], input[|input| - 1];
      TrackingFollowsLastToggle(c, front);
      StepReadFlags(ApplyReads(c, front), last);
      assert ApplyReads(c, input) == StepRead(ApplyReads(c, front), last);
      assert LastToggle(input) ==
        if last.Line? && Parse(last.text) == Start then Some(true)
        else if last.Line? && Parse(last.text) == Stop then Some(false)
        else LastToggle(front);
    }
  }

  /** Some element of `s` satisfies `p`. */
  predicate Any<T>(s: seq<T>, p: T -> bool) {
    exists k :: 0 <= k < |s| && p(s[k])
  }

  /** Some element of a non-empty sequence satisfies `p` iff some element of
      its front does or its last one does. */
  lemma AnySplit<T>(s: seq<T>, p: T -> bool)
    requires s != []
    ensures Any(s, p) == (Any(s[..|s| - 1], p) || p(s[|s| - 1]))
  {
    var front := s[..|s| - 1];
    if Any(front, p) {
      var k :| 0 <= k < |front| && p(front[k]);
      assert s[k] == front[k];
    }
    if Any(s, p) && !p(s[|s| - 1]) {
      var k :| 0 <= k < |s| && p(s[k]);
      assert front[k] == s[k];
    }
  }

  /** Some read is a CALIBRATE line. */
  predicate HasCalibrateLine(input: seq<Read>) {
    Any(input, IsCalibrateLine)
  }

  /** A calibration request is raised by any CALIBRATE read and never lowered
      by the reader. */
  lemma {:induction false} CalibrationRequestSticks(c: Control, input: seq<Read>)
    ensures ApplyReads(c, input).calibrationRequested <==>
      c.calibrationRequested || HasCalibrateLine(input)
    decreases |input|
  {
    if input != [] {
      var front, last := input[..|input| - 1], input[|input| - 1];
      CalibrationRequestSticks(c, front);
      StepReadFlags(ApplyReads(c, front), last);
      assert ApplyReads(c, input) == StepRead(ApplyReads(c, front), last);
      AnySplit(input, IsCalibrateLine);
    }
  }
}
