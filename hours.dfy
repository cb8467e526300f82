/**
 * `MarketDataTypeManager._parse_hours`: reads Interactive Brokers'
 * `tradingHours` / `liquidHours` text,
 *
 *     SEG(;SEG)*   with   SEG = YYYYMMDD:CLOSED | YYYYMMDD:HHMM-HHMM(,HHMM-HHMM)*
 *
 * and returns the (start, end) datetimes of the sessions of one day.
 * Python's exceptions (a failed unpacking, `int()` of a non-number, a
 * `datetime` field out of range) are the `Failure` cases.
 */
module HoursParser {
  import opened Results
  import opened Text
  import opened Calendar

  datatype ParseError =
    | MissingColon      // `date_part, sess_part = dayseg.split(":", 1)` cannot unpack
    | MissingDash       // `start_hm, end_hm = session.split("-", 1)` cannot unpack
    | NotANumber        // `int()` of a slice that is not a decimal number
    | FieldOutOfRange   // `datetime(...)` rejects a field

  datatype Interval = Interval(start: DateTime, end: DateTime)

  /** `int(s[i:j])` */
  function Field(s: string, i: nat, j: nat): Result<nat, ParseError>
    requires i <= j
  {
    match ParseNat(Slice(s, i, j))
    case None => Failure(NotANumber)
    case Some(v) => Success(v)
  }

  /**
   * `datetime(int(date[0:4]), int(date[4:6]), int(date[6:8]),
   *           int(hm[0:2]), int(hm[2:4]), tzinfo=tz)`
   */
  function MakeDateTime(date: string, hm: string): (r: Result<DateTime, ParseError>)
    ensures r.Success? ==> ValidDateTime(r.value) && r.value.second == 0 && r.value.microsecond == 0
  {
    var year :- Field(date, 0, 4);
    var month :- Field(date, 4, 6);
    var day :- Field(date, 6, 8);
    var hour :- Field(hm, 0, 2);
    var minute :- Field(hm, 2, 4);
    var t := DateTime(year, month, day, hour, minute, 0, 0);
    if ValidDateTime(t) then Success(t) else Failure(FieldOutOfRange)
  }

  /** One `HHMM-HHMM` session of the day `date`. */
  function ParseSession(date: string, session: string): Result<Interval, ParseError>
  {
    match SplitOnce(session, '-')
    case None => Failure(MissingDash)
    case Some((startHm, endHm)) =>
      var start :- MakeDateTime(date, startHm);
      var end :- MakeDateTime(date, endHm);
      Success(Interval(start, end))
  }

  /** The inner loop: each session's interval in order, or the first failure. */
  function SessionIntervals(sessions: seq<string>, date: string): Result<seq<Interval>, ParseError>
    decreases |sessions|
  {
    if |sessions| == 0 then Success([])
    else
      var done :- SessionIntervals(sessions[..|sessions| - 1], date);
      var last :- ParseSession(date, sessions[|sessions| - 1]);
      Success(done + [last])
  }

  /** Where the outer loop stands: still running with the intervals so far, returned `[]` on CLOSED, or raised. */
  datatype Scan = Ran(intervals: seq<Interval>) | Stopped | Failed(error: ParseError)

  /** One pass of the outer loop over the day segment `seg`. */
  function ScanSegment(seg: string, day: string, acc: seq<Interval>): Scan
  {
    if seg == "" then Ran(acc)
    else
      match SplitOnce(seg, ':')
      case None => Failed(MissingColon)
      case Some((date, sess)) =>
        if date != day then Ran(acc)
        else if sess == "CLOSED" then Stopped
        else
          match SessionIntervals(Split(sess, ','), date)
          case Failure(e) => Failed(e)
          case Success(found) => Ran(acc + found)
  }

  /** The outer loop over `segs`, starting from the intervals `start`. */
  function ScanSegments(segs: seq<string>, day: string, start: seq<Interval>): Scan
    decreases |segs|
  {
    if |segs| == 0 then Ran(start)
    else
      match ScanSegments(segs[..|segs| - 1], day, start)
      case Ran(acc) => ScanSegment(segs[|segs| - 1], day, acc)
      case other => other
  }

  /** What `_parse_hours(hours_str, tz, day_yyyymmdd)` returns or raises. */
  function ParsedHours(hours: string, day: string): Result<seq<Interval>, ParseError>
  {
    match ScanSegments(Split(hours, ';'), day, [])
    case Ran(found) => Success(found)
    case Stopped => Success([])
    case Failed(e) => Failure(e)
  }

  /** Carries on over `segs` from where the loop stands; a return or a raise is final. */
  function Resume(s: Scan, segs: seq<string>, day: string): Scan
  {
    match s
    case Ran(acc) => ScanSegments(segs, day, acc)
    case other => other
  }

  /** Once the loop has returned or raised, later segments change nothing. */
  lemma {:induction false} ScanSegmentsAppend(a: seq<string>, b: seq<string>, day: string, start: seq<Interval>)
    ensures ScanSegments(a + b, day, start) == Resume(ScanSegments(a, day, start), b, day)
    decreases |b|
  {
    if |b| == 0 {
      assert a + b == a;
    } else {
      assert (a + b)[..|a + b| - 1] == a + b[..|b| - 1];
      ScanSegmentsAppend(a, b[..|b| - 1], day, start);
    }
  }

  /** The outer loop over a non-empty list is one pass more than over all but the last segment. */
  lemma ScanSegmentsSnoc(segs: seq<string>, day: string)
    requires |segs| > 0
    ensures var before := ScanSegments(segs[..|segs| - 1], day, []);
            && (before.Ran? ==> ScanSegments(segs, day, []) == ScanSegment(segs[|segs| - 1], day, before.intervals))
            && (!before.Ran? ==> ScanSegments(segs, day, []) == before)
  {
  }

  /** A failing session hides every later one. */
  lemma {:induction false} SessionIntervalsAppendFailure(a: seq<string>, b: seq<string>, date: string)
    requires SessionIntervals(a, date).Failure?
    ensures SessionIntervals(a + b, date) == SessionIntervals(a, date)
    decreases |b|
  {
    if |b| == 0 {
      assert a + b == a;
    } else {
      assert (a + b)[..|a + b| - 1] == a + b[..|b| - 1];
      SessionIntervalsAppendFailure(a, b[..|b| - 1], date);
    }
  }

  /**
   * One more pass of the outer loop, from where the loop stands after `i`
   * segments: running on extends the prefix, and a return or a raise is
   * what the whole text gives.
   */
  lemma ScanStep(hours: string, i: nat, day: string, acc: seq<Interval>)
    requires i < |Split(hours, ';')| && ScanSegments(Split(hours, ';')[..i], day, []) == Ran(acc)
    ensures var segs := Split(hours, ';');
            var next := ScanSegment(segs[i], day, acc);
            && ScanSegments(segs[..i + 1], day, []) == next
            && (next.Stopped? ==> ParsedHours(hours, day) == Success([]))
            && (next.Failed? ==> ParsedHours(hours, day) == Failure(next.error))
  {
    var segs := Split(hours, ';');
    assert segs[..i + 1][..i] == segs[..i];
    assert segs == segs[..i + 1] + segs[i + 1..];
    ScanSegmentsAppend(segs[..i + 1], segs[i + 1..], day, []);
  }

  /** One more pass of the inner loop; a failing session decides the whole list. */
  lemma SessionStep(sessions: seq<string>, j: nat, date: string, found: seq<Interval>)
    requires j < |sessions| && SessionIntervals(sessions[..j], date) == Success(found)
    ensures var parsed := ParseSession(date, sessions[j]);
            && (parsed.Success? ==> SessionIntervals(sessions[..j + 1], date) == Success(found + [parsed.value]))
            && (parsed.Failure? ==> SessionIntervals(sessions, date) == Failure(parsed.error))
  {
    assert sessions[..j + 1][..j] == sessions[..j];
    if ParseSession(date, sessions[j]).Failure? {
      assert sessions == sessions[..j + 1] + sessions[j + 1..];
      SessionIntervalsAppendFailure(sessions[..j + 1], sessions[j + 1..], date);
    }
  }

  /**
   * The inner loop of `_parse_hours`: appends the interval of each session
   * of `sessPart` to `intervals`, or raises at the first bad session.
   */
  method AppendSessions(intervals: seq<Interval>, datePart: string, sessPart: string)
    returns (r: Result<seq<Interval>, ParseError>)
    ensures var all := SessionIntervals(Split(sessPart, ','), datePart);
            && (all.Success? ==> r == Success(intervals + all.value))
            && (all.Failure? ==> r == Failure(all.error))
  {
    var sessions := Split(sessPart, ',');
    var acc := intervals;
    ghost var found: seq<Interval> := [];
    var j := 0;
    while j < |sessions|
      invariant 0 <= j <= |sessions|
      invariant acc == intervals + found
      invariant SessionIntervals(sessions[..j], datePart) == Success(found)
    {
      SessionStep(sessions, j, datePart, found);
      var parts := SplitOnce(sessions[j], '-');
      if parts.None? {
        assert ParseSession(datePart, sessions[j]) == Failure(MissingDash);
        return Failure(MissingDash);
      }
      var (startHm, endHm) := parts.value;
      var start := MakeDateTime(datePart, startHm);
      if start.Failure? {
        assert ParseSession(datePart, sessions[j]) == Failure(start.error);
        return Failure(start.error);
      }
      var end := MakeDateTime(datePart, endHm);
      if end.Failure? {
        assert ParseSession(datePart, sessions[j]) == Failure(end.error);
        return Failure(end.error);
      }
      assert ParseSession(datePart, sessions[j]) == Success(Interval(start.value, end.value));
      acc := acc + [Interval(start.value, end.value)];
      found := found + [Interval(start.value, end.value)];
      j := j + 1;
    }
    assert sessions[..j] == sessions;
    return Success(acc);
  }

  /**
   * The imperative `_parse_hours`: a loop over the day segments that
   * appends to `intervals` and leaves early on CLOSED or on an exception.
   */
  method ParseHours(hours: string, day: string) returns (r: Result<seq<Interval>, ParseError>)
    ensures r == ParsedHours(hours, day)
  {
    var segments := Split(hours, ';');
    var intervals: seq<Interval> := [];
    var i := 0;
    while i < |segments|
      invariant 0 <= i <= |segments|
      invariant ScanSegments(segments[..i], day, []) == Ran(intervals)
    {
      var seg := segments[i];
      ScanStep(hours, i, day, intervals);
      if seg == "" {
        i := i + 1;
        continue;
      }
      var split := SplitOnce(seg, ':');
      if split.None? {
        return Failure(MissingColon);
      }
      var (datePart, sessPart) := split.value;
      if datePart != day {
        i := i + 1;
        continue;
      }
      if sessPart == "CLOSED" {
        return Success([]);
      }
      var appended := AppendSessions(intervals, datePart, sessPart);
      if appended.Failure? {
        return Failure(appended.error);
      }
      intervals := appended.value;
      i := i + 1;
    }
    assert segments[..i] == segments;
    return Success(intervals);
  }
}
