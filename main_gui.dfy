/**
 * The text shown by the pipeline's control window (mainGui.py): elapsed
 * and recorded durations as `HH:MM:SS`, and the status line of each task
 * when the window opens.
 */
module MainGui {
  import opened Wrappers
  import opened Text

  // ---------------------------------------------------------------------------
  // Durations
  // ---------------------------------------------------------------------------

  /** `int(x)` on a float: truncation toward zero. */
  function Truncate(x: real): (t: int)
    ensures x >= 0.0 ==> 0 <= t && t as real <= x < t as real + 1.0
    ensures x < 0.0 ==> t <= 0 && t as real - 1.0 < x <= t as real
  {
    if x >= 0.0 then x.Floor else -((-x).Floor)
  }

  /**
   * Hours, minutes and seconds of a whole number of seconds, by Python's
   * floor division and modulo (which agree with Dafny's for a positive
   * divisor).
   */
  function Decompose(total: int): (r: (int, int, int))
    ensures r.0 * 3600 + r.1 * 60 + r.2 == total
    ensures 0 <= r.1 < 60 && 0 <= r.2 < 60
    ensures total >= 0 ==> r.0 >= 0
  {
    (total / 3600, (total % 3600) / 60, total % 60)
  }

  /** The decomposition is the only one with minutes and seconds below 60. */
  lemma DecomposeUnique(total: int, h: int, m: int, s: int)
    requires h * 3600 + m * 60 + s == total
    requires 0 <= m < 60 && 0 <= s < 60
    ensures Decompose(total) == (h, m, s)
  {
    var (h', m', s') := Decompose(total);
    assert (h - h') * 3600 == (m' - m) * 60 + (s' - s);
    assert m * 60 + s == m' * 60 + s';
  }

  /** `f"{n:02d}"`: at least two digits, zero-padded; the sign of a negative number counts as a character. */
  function Pad2(n: int): (r: string)
    ensures |r| >= 2
    ensures n >= 0 ==> AllDigits(r)
    ensures 0 <= n < 100 ==> |r| == 2
  {
    if n < 0 then "-" + Digits(-n)
    else if n < 10 then "0" + Digits(n)
    else
      assert n < 100 ==> |Digits(n / 10)| == 1;
      Digits(n)
  }

  predicate AllDigits(s: string) {
    forall i :: 0 <= i < |s| ==> IsDigit(s[i])
  }

  /** Reading back a padded non-negative field gives the number. */
  lemma Pad2Parse(n: int)
    requires n >= 0
    ensures ParseDigits(Pad2(n)) == n
  {
    ParseDigitsRoundTrip(n);
    if n < 10 {
      assert Pad2(n)[..1] == "0";
    }
  }

  /**
   * `_format_duration`: `HH:MM:SS` of the whole seconds of a duration.
   * Minutes and seconds always take exactly two characters each, after the
   * hours and a `:`.
   */
  function FormatDuration(seconds: real): (t: string)
    ensures |t| >= 8 && t[|t| - 3] == ':' && t[|t| - 6] == ':'
  {
    var (h, m, s) := Decompose(Truncate(seconds));
    Pad2(h) + ":" + Pad2(m) + ":" + Pad2(s)
  }

  /** Reading an `H:MM:SS` text back to seconds; None unless it is three digit fields. */
  function ParseDuration(text: string): Option<int> {
    var parts := Split(text, ':');
    if |parts| == 3 && AllDigits(parts[0]) && AllDigits(parts[1]) && AllDigits(parts[2]) then
      Some(ParseDigits(parts[0]) * 3600 + ParseDigits(parts[1]) * 60 + ParseDigits(parts[2]))
    else None
  }

  /** A non-negative duration's text reads back as its whole seconds. */
  lemma FormatDurationRoundTrip(seconds: real)
    requires seconds >= 0.0
    ensures ParseDuration(FormatDuration(seconds)) == Some(Truncate(seconds))
  {
    var (h, m, s) := Decompose(Truncate(seconds));
    FieldsSplit(Pad2(h), Pad2(m), Pad2(s));
    Pad2Parse(h);
    Pad2Parse(m);
    Pad2Parse(s);
  }

  lemma FieldsSplit(a: string, b: string, c: string)
    requires AllDigits(a) && AllDigits(b) && AllDigits(c)
    ensures Split(a + ":" + b + ":" + c, ':') == [a, b, c]
  {
    assert ':' !in a && ':' !in b && ':' !in c by {
      assert !IsDigit(':');
    }
    SplitAround(a + ":" + b, c, ':');
    SplitAround(a, b, ':');
    SplitAbsent(a, ':');
    SplitAbsent(b, ':');
    SplitAbsent(c, ':');
  }

  /** `update_timer`: the label of a running task, from the whole seconds since it started. */
  function TimerText(startTime: real, now: real): string {
    "Running (" + FormatDuration(now - startTime) + ")"
  }

  /** The running label reads back as the whole seconds elapsed. */
  lemma TimerShowsElapsed(startTime: real, now: real)
    requires startTime <= now
    ensures var t := TimerText(startTime, now);
            && t[..9] == "Running (" && t[|t| - 1] == ')'
            && ParseDuration(t[9..|t| - 1]) == Some(Truncate(now - startTime))
  {
    ParseDurationOf(FormatDuration(now - startTime), Truncate(now - startTime), now - startTime);
    Enclosed(FormatDuration(now - startTime), Truncate(now - startTime));
  }

  lemma ParseDurationOf(d: string, secs: int, seconds: real)
    requires seconds >= 0.0 && d == FormatDuration(seconds) && secs == Truncate(seconds)
    ensures ParseDuration(d) == Some(secs)
  {
    FormatDurationRoundTrip(seconds);
  }

  /** A duration text inside the running label still reads back as its seconds. */
  lemma Enclosed(d: string, secs: int)
    requires ParseDuration(d) == Some(secs)
    ensures var t := "Running (" + d + ")";
            t[..9] == "Running (" && t[|t| - 1] == ')' && ParseDuration(t[9..|t| - 1]) == Some(secs)
  {
    var t := "Running (" + d + ")";
    assert t[9..|t| - 1] == d;
  }

  // ---------------------------------------------------------------------------
  // Status lines
  // ---------------------------------------------------------------------------

  /** A task's entry in the saved run times: an object of strings, or any other value as it prints. */
  datatype RunRecord = RunObject(fields: map<string, string>) | RunOther(printed: string)

  function FieldOr(fields: map<string, string>, key: string): (r: string)
    ensures key in fields ==> r == fields[key]
    ensures key !in fields ==> r == "Not found"
  {
    if key in fields then fields[key] else "Not found"
  }

  /**
   * The status line of a task when the window opens: "Not yet run" for a
   * task that never ran, and a line starting "Last run at " for any
   * recorded task.
   */
  function InitialStatusText(lastRun: map<string, RunRecord>, name: string): (line: string)
    ensures name !in lastRun ==> line == "Not yet run"
    ensures name in lastRun ==> |line| >= 12 && line[..12] == "Last run at "
  {
    if name !in lastRun then "Not yet run"
    else
      match lastRun[name]
      case RunObject(fields) =>
        "Last run at " + FieldOr(fields, "timestamp") + " (took " + FieldOr(fields, "duration") + ")"
      case RunOther(printed) => "Last run at " + printed
  }

  /** The line a task shows when it finishes. */
  function FinishedText(currentTime: string, duration: real): string {
    "Last run at " + currentTime + " (took " + FormatDuration(duration) + ")"
  }

  /** The record a finished task saves. */
  function RecordRun(lastRun: map<string, RunRecord>, name: string, currentTime: string, duration: real): map<string, RunRecord> {
    lastRun[name := RunObject(map["timestamp" := currentTime, "duration" := FormatDuration(duration)])]
  }

  /**
   * After a task finishes and its time is saved, reopening the window shows
   * the line it showed when it finished, and other tasks' lines are unchanged.
   */
  lemma RecordedRunShowsSame(lastRun: map<string, RunRecord>, name: string, other: string,
                             currentTime: string, duration: real)
    requires other != name
    ensures InitialStatusText(RecordRun(lastRun, name, currentTime, duration), name) == FinishedText(currentTime, duration)
    ensures InitialStatusText(RecordRun(lastRun, name, currentTime, duration), other) == InitialStatusText(lastRun, other)
  {
    var fields := map["timestamp" := currentTime, "duration" := FormatDuration(duration)];
    assert "timestamp" != "duration";
    assert FieldOr(fields, "timestamp") == currentTime;
  }
}
