/**
 * What `_parse_hours` promises about IB hours text.
 *
 * The main statement renders a list of day entries into the text IB
 * sends and parses it back: for the requested day the result is empty if
 * any entry for that day is CLOSED, and otherwise every session of every
 * entry for that day, in textual order; entries for other days contribute
 * nothing. The remaining lemmas state the rules on arbitrary text.
 */
module HoursProperties {
  import opened Results
  import opened Text
  import opened Calendar
  import opened HoursParser

  datatype HourMinute = HourMinute(hour: nat, minute: nat)
  datatype Session = Session(open: HourMinute, close: HourMinute)
  datatype DayHours = Closed | Open(sessions: seq<Session>)
  datatype DayEntry = DayEntry(date: Date, hours: DayHours)

  predicate ValidHourMinute(t: HourMinute) {
    t.hour < 24 && t.minute < 60
  }

  /** An entry IB could send: a real date and, when open, at least one session of real times. */
  predicate WellFormedEntry(e: DayEntry) {
    && ValidDate(e.date)
    && (e.hours.Open? ==>
          && |e.hours.sessions| >= 1
          && forall k :: 0 <= k < |e.hours.sessions| ==>
               ValidHourMinute(e.hours.sessions[k].open) && ValidHourMinute(e.hours.sessions[k].close))
  }

  function RenderHourMinute(t: HourMinute): string {
    Pad(t.hour, 2) + Pad(t.minute, 2)
  }

  function RenderSession(s: Session): string {
    RenderHourMinute(s.open) + "-" + RenderHourMinute(s.close)
  }

  function RenderSessions(ss: seq<Session>): seq<string> {
    seq(|ss|, k requires 0 <= k < |ss| => RenderSession(ss[k]))
  }

  function RenderDayHours(h: DayHours): string {
    match h
    case Closed => "CLOSED"
    case Open(ss) => Join(RenderSessions(ss), ',')
  }

  function RenderEntry(e: DayEntry): string {
    FormatYmd(e.date) + ":" + RenderDayHours(e.hours)
  }

  function RenderEntries(entries: seq<DayEntry>): seq<string> {
    seq(|entries|, k requires 0 <= k < |entries| => RenderEntry(entries[k]))
  }

  /** The hours text IB would send for these entries. */
  function RenderHours(entries: seq<DayEntry>): string {
    Join(RenderEntries(entries), ';')
  }

  function At(d: Date, t: HourMinute): DateTime {
    DateTime(d.year, d.month, d.day, t.hour, t.minute, 0, 0)
  }

  function SessionsOn(d: Date, ss: seq<Session>): seq<Interval> {
    seq(|ss|, k requires 0 <= k < |ss| => Interval(At(d, ss[k].open), At(d, ss[k].close)))
  }

  /** The sessions of every open entry for `day`, in order. */
  function DayIntervals(entries: seq<DayEntry>, day: Date): seq<Interval>
    decreases |entries|
  {
    if |entries| == 0 then []
    else
      var e := entries[|entries| - 1];
      DayIntervals(entries[..|entries| - 1], day)
        + (if e.date == day && e.hours.Open? then SessionsOn(day, e.hours.sessions) else [])
  }

  predicate ClosedOn(entries: seq<DayEntry>, day: Date) {
    exists k :: 0 <= k < |entries| && entries[k].date == day && entries[k].hours.Closed?
  }

  /** The intervals a reader of IB's format expects for `day`. */
  function ExpectedIntervals(entries: seq<DayEntry>, day: Date): seq<Interval> {
    if ClosedOn(entries, day) then [] else DayIntervals(entries, day)
  }

  // ---------------------------------------------------------------------
  // Characters of the rendered text

  lemma DigitsAvoid(s: string, c: char)
    requires AllDigits(s) && !IsDigit(c)
    ensures c !in s
  {
  }

  lemma {:induction false} JoinAvoids(parts: seq<string>, sep: char, c: char)
    requires c != sep
    requires forall k :: 0 <= k < |parts| ==> c !in parts[k]
    ensures c !in Join(parts, sep)
    decreases |parts|
  {
    if |parts| > 1 {
      JoinAvoids(parts[1..], sep, c);
    }
  }

  lemma SessionTextAvoids(s: Session, c: char)
    requires !IsDigit(c) && c != '-'
    ensures c !in RenderSession(s)
  {
    DigitsAvoid(RenderHourMinute(s.open), c);
    DigitsAvoid(RenderHourMinute(s.close), c);
  }

  lemma DayHoursTextAvoids(h: DayHours, c: char)
    requires !IsDigit(c) && c !in "-,CLOSED"
    ensures c !in RenderDayHours(h)
  {
    if h.Open? {
      forall k | 0 <= k < |h.sessions| ensures c !in RenderSessions(h.sessions)[k] {
        SessionTextAvoids(h.sessions[k], c);
      }
      JoinAvoids(RenderSessions(h.sessions), ',', c);
    }
  }

  // ---------------------------------------------------------------------
  // Parsing the rendered text back

  /** The digits of a rendered time read back as that time on `d`. */
  lemma RenderedTimeParses(d: Date, t: HourMinute)
    requires ValidDate(d) && ValidHourMinute(t)
    ensures MakeDateTime(FormatYmd(d), RenderHourMinute(t)) == Success(At(d, t))
  {
    FormatYmdFields(d);
    var hm := RenderHourMinute(t);
    assert Slice(hm, 0, 2) == Pad(t.hour, 2);
    assert Slice(hm, 2, 4) == Pad(t.minute, 2);
    assert Pow10(2) == 100;
    ParsePad(t.hour, 2);
    ParsePad(t.minute, 2);
  }

  lemma RenderedSessionParses(d: Date, s: Session)
    requires ValidDate(d) && ValidHourMinute(s.open) && ValidHourMinute(s.close)
    ensures ParseSession(FormatYmd(d), RenderSession(s)) == Success(Interval(At(d, s.open), At(d, s.close)))
  {
    DigitsAvoid(RenderHourMinute(s.open), '-');
    SplitOnceAt(RenderHourMinute(s.open), '-', RenderHourMinute(s.close));
    RenderedTimeParses(d, s.open);
    RenderedTimeParses(d, s.close);
  }

  lemma {:induction false} RenderedSessionsParse(d: Date, ss: seq<Session>)
    requires ValidDate(d)
    requires forall k :: 0 <= k < |ss| ==> ValidHourMinute(ss[k].open) && ValidHourMinute(ss[k].close)
    ensures SessionIntervals(RenderSessions(ss), FormatYmd(d)) == Success(SessionsOn(d, ss))
    decreases |ss|
  {
    if |ss| > 0 {
      var n := |ss| - 1;
      var pieces := RenderSessions(ss);
      RenderSessionsSnoc(ss);
      RenderedSessionsParse(d, ss[..n]);
      RenderedSessionParses(d, ss[n]);
      SessionsOnSnoc(d, ss);
      assert SessionIntervals(pieces, FormatYmd(d)) ==
             Success(SessionsOn(d, ss[..n]) + [Interval(At(d, ss[n].open), At(d, ss[n].close))]);
    } else {
      assert RenderSessions(ss) == [] && SessionsOn(d, ss) == [];
    }
  }

  lemma RenderSessionsSnoc(ss: seq<Session>)
    requires |ss| > 0
    ensures RenderSessions(ss)[..|ss| - 1] == RenderSessions(ss[..|ss| - 1])
    ensures RenderSessions(ss)[|ss| - 1] == RenderSession(ss[|ss| - 1])
  {
  }

  lemma SessionsOnSnoc(d: Date, ss: seq<Session>)
    requires |ss| > 0
    ensures SessionsOn(d, ss) ==
            SessionsOn(d, ss[..|ss| - 1]) + [Interval(At(d, ss[|ss| - 1].open), At(d, ss[|ss| - 1].close))]
  {
  }

  /** One pass of the loop over a rendered entry. */
  lemma RenderedEntryScans(e: DayEntry, day: Date, acc: seq<Interval>)
    requires WellFormedEntry(e) && ValidDate(day)
    ensures ScanSegment(RenderEntry(e), FormatYmd(day), acc) ==
            if e.date != day then Ran(acc)
            else if e.hours.Closed? then Stopped
            else Ran(acc + SessionsOn(day, e.hours.sessions))
  {
    var text := RenderDayHours(e.hours);
    DigitsAvoid(FormatYmd(e.date), ':');
    SplitOnceAt(FormatYmd(e.date), ':', text);
    FormatYmdInjective(e.date, day);
    if e.date == day && e.hours.Open? {
      var ss := e.hours.sessions;
      var pieces := RenderSessions(ss);
      JoinStartsWithFirst(pieces, ',');
      assert |text| >= 9;
      forall k | 0 <= k < |pieces| ensures ',' !in pieces[k] {
        SessionTextAvoids(ss[k], ',');
      }
      SplitJoin(pieces, ',');
      RenderedSessionsParse(day, ss);
    }
  }

  /** A day is closed in a list iff it is closed before the last entry or in it. */
  lemma ClosedOnLast(entries: seq<DayEntry>, day: Date)
    requires |entries| > 0
    ensures ClosedOn(entries, day) <==>
            ClosedOn(entries[..|entries| - 1], day) ||
            (entries[|entries| - 1].date == day && entries[|entries| - 1].hours.Closed?)
  {
    var n := |entries| - 1;
    if ClosedOn(entries, day) {
      var k :| 0 <= k < |entries| && entries[k].date == day && entries[k].hours.Closed?;
      if k < n {
        assert entries[..n][k] == entries[k];
      }
    }
    if ClosedOn(entries[..n], day) {
      var k :| 0 <= k < n && entries[..n][k].date == day && entries[..n][k].hours.Closed?;
      assert entries[k] == entries[..n][k];
    }
  }

  lemma {:induction false} RenderedEntriesScan(entries: seq<DayEntry>, day: Date)
    requires ValidDate(day)
    requires forall k :: 0 <= k < |entries| ==> WellFormedEntry(entries[k])
    ensures ScanSegments(RenderEntries(entries), FormatYmd(day), []) ==
            if ClosedOn(entries, day) then Stopped else Ran(DayIntervals(entries, day))
    decreases |entries|
  {
    if |entries| > 0 {
      var n := |entries| - 1;
      var prefix := entries[..n];
      var d := FormatYmd(day);
      RenderEntriesSnoc(entries);
      RenderedEntriesScan(prefix, day);
      ClosedOnLast(entries, day);
      ScanSegmentsSnoc(RenderEntries(entries), d);
      if ClosedOn(prefix, day) {
        assert ScanSegments(RenderEntries(prefix), d, []) == Stopped;
      } else {
        assert ScanSegments(RenderEntries(prefix), d, []) == Ran(DayIntervals(prefix, day));
        RenderedLastEntryScans(entries, day);
      }
    } else {
      assert RenderEntries(entries) == [];
    }
  }

  /** The pass over the last entry, from the intervals of all earlier ones. */
  lemma RenderedLastEntryScans(entries: seq<DayEntry>, day: Date)
    requires ValidDate(day) && |entries| > 0 && WellFormedEntry(entries[|entries| - 1])
    ensures var n := |entries| - 1;
            var e := entries[n];
            ScanSegment(RenderEntry(e), FormatYmd(day), DayIntervals(entries[..n], day)) ==
              if e.date == day && e.hours.Closed? then Stopped else Ran(DayIntervals(entries, day))
  {
    var n := |entries| - 1;
    RenderedEntryScans(entries[n], day, DayIntervals(entries[..n], day));
  }

  lemma RenderEntriesSnoc(entries: seq<DayEntry>)
    requires |entries| > 0
    ensures RenderEntries(entries)[..|entries| - 1] == RenderEntries(entries[..|entries| - 1])
    ensures RenderEntries(entries)[|entries| - 1] == RenderEntry(entries[|entries| - 1])
  {
  }

  /**
   * Round trip: parsing the rendered text for a valid day gives exactly
   * the expected intervals, one per session, in textual order, or none
   * when the day is CLOSED anywhere in the text.
   */
  lemma ParseRenderedHours(entries: seq<DayEntry>, day: Date)
    requires ValidDate(day)
    requires forall k :: 0 <= k < |entries| ==> WellFormedEntry(entries[k])
    ensures ParsedHours(RenderHours(entries), FormatYmd(day)) == Success(ExpectedIntervals(entries, day))
  {
    if |entries| > 0 {
      var texts := RenderEntries(entries);
      forall k | 0 <= k < |texts| ensures ';' !in texts[k] {
        DigitsAvoid(FormatYmd(entries[k].date), ';');
        DayHoursTextAvoids(entries[k].hours, ';');
      }
      SplitJoin(texts, ';');
      RenderedEntriesScan(entries, day);
    } else {
      assert Split("", ';') == [""];
      assert [""][..0] == [];
    }
  }

  // ---------------------------------------------------------------------
  // Every returned interval lies on the requested day

  /** Start and end both fall on the calendar day written `day`. */
  predicate WithinDay(iv: Interval, day: string) {
    FormatYmd(iv.start.CalendarDate()) == day && FormatYmd(iv.end.CalendarDate()) == day
  }

  predicate AllWithinDay(ivs: seq<Interval>, day: string) {
    forall k :: 0 <= k < |ivs| ==> WithinDay(ivs[k], day)
  }

  /** A day string as `strftime("%Y%m%d")` writes it. */
  predicate DayText(day: string) {
    |day| == 8 && AllDigits(day)
  }

  lemma MakeDateTimeOnDay(date: string, hm: string)
    requires DayText(date) && MakeDateTime(date, hm).Success?
    ensures FormatYmd(MakeDateTime(date, hm).value.CalendarDate()) == date
  {
    var y, m, d := Slice(date, 0, 4), Slice(date, 4, 6), Slice(date, 6, 8);
    PadParseNat(y);
    PadParseNat(m);
    PadParseNat(d);
    assert date == y + m + d;
  }

  lemma {:induction false} SessionIntervalsOnDay(sessions: seq<string>, date: string)
    requires DayText(date) && SessionIntervals(sessions, date).Success?
    ensures AllWithinDay(SessionIntervals(sessions, date).value, date)
    decreases |sessions|
  {
    if |sessions| > 0 {
      SessionIntervalsOnDay(sessions[..|sessions| - 1], date);
      var session := sessions[|sessions| - 1];
      var (startHm, endHm) := SplitOnce(session, '-').value;
      MakeDateTimeOnDay(date, startHm);
      MakeDateTimeOnDay(date, endHm);
    }
  }

  lemma {:induction false} ScanSegmentsOnDay(segs: seq<string>, day: string, start: seq<Interval>)
    requires DayText(day) && AllWithinDay(start, day)
    ensures ScanSegments(segs, day, start).Ran? ==> AllWithinDay(ScanSegments(segs, day, start).intervals, day)
    decreases |segs|
  {
    if |segs| > 0 {
      ScanSegmentsOnDay(segs[..|segs| - 1], day, start);
      var seg := segs[|segs| - 1];
      if seg != "" && ':' in seg {
        var (date, sess) := SplitOnce(seg, ':').value;
        if date == day && sess != "CLOSED" && SessionIntervals(Split(sess, ','), date).Success? {
          SessionIntervalsOnDay(Split(sess, ','), date);
        }
      }
    }
  }

  /**
   * The parser only ever returns intervals of the day it was asked for:
   * dates come from the segment's date part, which must equal that day.
   */
  lemma ParsedHoursOnDay(hours: string, day: string)
    requires DayText(day)
    ensures ParsedHours(hours, day).Success? ==> AllWithinDay(ParsedHours(hours, day).value, day)
  {
    ScanSegmentsOnDay(Split(hours, ';'), day, []);
  }

  // ---------------------------------------------------------------------
  // The rules on arbitrary text

  /** `pre;seg;rest` splits into the pieces of `pre`, then `seg`, then the pieces of `rest`. */
  lemma SplitAround(pre: string, seg: string, rest: string)
    requires ';' !in seg
    ensures Split(pre + ";" + seg + ";" + rest, ';') == Split(pre, ';') + [seg] + Split(rest, ';')
  {
    assert pre + ";" + seg + ";" + rest == pre + [';'] + (seg + [';'] + rest);
    SplitConcat(pre, seg + [';'] + rest, ';');
    SplitConcat(seg, rest, ';');
    SplitWithoutSeparator(seg, ';');
  }

  /** The loop runs over `a`, then `seg`, then `b`. */
  lemma ScanThrough(a: seq<string>, seg: string, b: seq<string>, day: string)
    ensures ScanSegments(a + [seg] + b, day, []) ==
            Resume(Resume(ScanSegments(a, day, []), [seg], day), b, day)
  {
    ScanSegmentsAppend(a + [seg], b, day, []);
    ScanSegmentsAppend(a, [seg], day, []);
  }

  /** The loop over a single segment is one pass. */
  lemma ScanOne(seg: string, day: string, acc: seq<Interval>)
    ensures ScanSegments([seg], day, acc) == ScanSegment(seg, day, acc)
  {
    assert [seg][..0] == [];
  }

  /** A segment the loop passes over (empty, or for another day) can be dropped without effect. */
  lemma PassedSegmentIgnored(pre: string, seg: string, rest: string, day: string)
    requires ';' !in seg
    requires seg == "" || (SplitOnce(seg, ':').Some? && SplitOnce(seg, ':').value.0 != day)
    ensures ParsedHours(pre + ";" + seg + ";" + rest, day) == ParsedHours(pre + ";" + rest, day)
  {
    var a, r := Split(pre, ';'), Split(rest, ';');
    SplitAround(pre, seg, rest);
    assert pre + ";" + rest == pre + [';'] + rest;
    SplitConcat(pre, rest, ';');
    ScanThrough(a, seg, r, day);
    ScanSegmentsAppend(a, r, day, []);
    PassedSegmentKeepsScan(ScanSegments(a, day, []), seg, day);
  }

  /** Passing over such a segment leaves the loop where it stood. */
  lemma PassedSegmentKeepsScan(x: Scan, seg: string, day: string)
    requires seg == "" || (SplitOnce(seg, ':').Some? && SplitOnce(seg, ':').value.0 != day)
    ensures Resume(x, [seg], day) == x
  {
    if x.Ran? {
      ScanOne(seg, day, x.intervals);
    }
  }

  /** A segment whose date part is not the requested day contributes nothing, wherever it stands. */
  lemma OtherDaySegmentIgnored(pre: string, date: string, sess: string, rest: string, day: string)
    requires ':' !in date && ';' !in date && ';' !in sess
    requires date != day
    ensures ParsedHours(pre + ";" + (date + ":" + sess) + ";" + rest, day) == ParsedHours(pre + ";" + rest, day)
  {
    SplitOnceAt(date, ':', sess);
    PassedSegmentIgnored(pre, date + ":" + sess, rest, day);
  }

  /** Empty segments (`;;`) are skipped. */
  lemma EmptySegmentIgnored(pre: string, rest: string, day: string)
    ensures ParsedHours(pre + ";;" + rest, day) == ParsedHours(pre + ";" + rest, day)
  {
    assert pre + ";;" + rest == pre + ";" + "" + ";" + rest;
    PassedSegmentIgnored(pre, "", rest, day);
  }

  /** A trailing `;` is skipped, and the empty text has no intervals. */
  lemma TrailingSeparatorIgnored(s: string, day: string)
    ensures ParsedHours(s + ";", day) == ParsedHours(s, day)
    ensures ParsedHours("", day) == Success([])
  {
    assert s + ";" == s + [';'] + "";
    SplitConcat(s, "", ';');
    ScanSegmentsAppend(Split(s, ';'), [""], day, []);
    assert [""][..0] == [];
    assert Split("", ';') == [""];
  }

  /**
   * A non-empty segment without `:` raises wherever it stands, once the
   * loop reaches it, even when it would belong to another day: the split
   * happens before the date comparison.
   */
  lemma MissingColonFails(hours: string, i: nat, day: string)
    requires i < |Split(hours, ';')| && ScanSegments(Split(hours, ';')[..i], day, []).Ran?
    requires Split(hours, ';')[i] != "" && ':' !in Split(hours, ';')[i]
    ensures ParsedHours(hours, day) == Failure(MissingColon)
  {
    ScanStep(hours, i, day, ScanSegments(Split(hours, ';')[..i], day, []).intervals);
  }

  /**
   * In a segment of the requested day, a session without `-` raises once
   * the sessions before it have parsed, wherever the segment stands.
   */
  lemma MissingDashFails(hours: string, i: nat, day: string, sess: string, j: nat)
    requires i < |Split(hours, ';')| && ScanSegments(Split(hours, ';')[..i], day, []).Ran?
    requires ':' !in day && Split(hours, ';')[i] == day + ":" + sess && sess != "CLOSED"
    requires j < |Split(sess, ',')| && '-' !in Split(sess, ',')[j]
    requires SessionIntervals(Split(sess, ',')[..j], day).Success?
    ensures ParsedHours(hours, day) == Failure(MissingDash)
  {
    var sessions := Split(sess, ',');
    SplitOnceAt(day, ':', sess);
    SessionStep(sessions, j, day, SessionIntervals(sessions[..j], day).value);
    assert SessionIntervals(sessions, day) == Failure(MissingDash);
    ScanStep(hours, i, day, ScanSegments(Split(hours, ';')[..i], day, []).intervals);
  }

  /**
   * A CLOSED segment for the requested day returns `[]` at once: intervals
   * collected from earlier segments are dropped and later segments, even
   * malformed ones, are never read.
   */
  lemma ClosedSegmentStops(day: string, acc: seq<Interval>)
    requires ':' !in day
    ensures ScanSegment(day + ":CLOSED", day, acc) == Stopped
  {
    SplitOnceAt(day, ':', "CLOSED");
    assert day + ":CLOSED" == day + [':'] + "CLOSED";
  }

  lemma ClosedDiscardsEverything(pre: string, day: string, rest: string)
    requires ':' !in day && ';' !in day
    requires ParsedHours(pre, day).Success?
    ensures ParsedHours(pre + ";" + (day + ":CLOSED") + ";" + rest, day) == Success([])
  {
    var seg := day + ":CLOSED";
    var a, r := Split(pre, ';'), Split(rest, ';');
    SplitAround(pre, seg, rest);
    ScanThrough(a, seg, r, day);
    var x := ScanSegments(a, day, []);
    assert x.Ran? || x.Stopped?;
    if x.Ran? {
      ClosedSegmentStops(day, x.intervals);
      ScanOne(seg, day, x.intervals);
    }
  }

  // ---------------------------------------------------------------------
  // The examples of the test suite

  function NineToFour(): Session { Session(HourMinute(9, 30), HourMinute(16, 0)) }
  function NineToNoon(): Session { Session(HourMinute(9, 30), HourMinute(12, 0)) }
  function OneToFour(): Session { Session(HourMinute(13, 0), HourMinute(16, 0)) }

  lemma PadTwoDigits(n: nat)
    requires n < 100
    ensures Pad(n, 2) == [DigitChar(n / 10), DigitChar(n % 10)]
  {
    var tens := n / 10;
    assert tens < 10 && tens / 10 == 0 && tens % 10 == tens;
    assert Pad(tens, 1) == Pad(0, 0) + [DigitChar(tens)];
  }

  lemma RenderedSessionTexts()
    ensures RenderSession(NineToFour()) == "0930-1600"
    ensures RenderSession(NineToNoon()) == "0930-1200"
    ensures RenderSession(OneToFour()) == "1300-1600"
  {
    PadTwoDigits(9);
    PadTwoDigits(30);
    PadTwoDigits(16);
    PadTwoDigits(0);
    PadTwoDigits(12);
    PadTwoDigits(13);
  }

  lemma RenderedDateTexts()
    ensures FormatYmd(Date(2025, 1, 2)) == "20250102"
    ensures FormatYmd(Date(2025, 1, 3)) == "20250103"
  {
    assert Pad(2, 1) == "2";
    assert Pad(20, 2) == "20";
    assert Pad(202, 3) == "202";
    assert Pad(2025, 4) == "2025";
    PadTwoDigits(1);
    PadTwoDigits(2);
    PadTwoDigits(3);
  }

  lemma RenderOpenOne(d: Date, s: Session)
    ensures RenderEntry(DayEntry(d, Open([s]))) == FormatYmd(d) + ":" + RenderSession(s)
  {
    assert RenderSessions([s]) == [RenderSession(s)];
  }

  lemma RenderOpenTwo(d: Date, s0: Session, s1: Session)
    ensures RenderEntry(DayEntry(d, Open([s0, s1]))) == FormatYmd(d) + ":" + RenderSession(s0) + "," + RenderSession(s1)
  {
    var texts := RenderSessions([s0, s1]);
    assert texts == [RenderSession(s0), RenderSession(s1)];
    JoinTwo(RenderSession(s0), RenderSession(s1), ',');
  }

  lemma RenderOne(e: DayEntry)
    ensures RenderHours([e]) == RenderEntry(e)
  {
    assert RenderEntries([e]) == [RenderEntry(e)];
  }

  lemma RenderTwo(e0: DayEntry, e1: DayEntry)
    ensures RenderHours([e0, e1]) == RenderEntry(e0) + ";" + RenderEntry(e1)
  {
    var texts := RenderEntries([e0, e1]);
    assert texts == [RenderEntry(e0), RenderEntry(e1)];
    JoinTwo(RenderEntry(e0), RenderEntry(e1), ';');
  }

  function EntryIntervals(e: DayEntry, day: Date): seq<Interval> {
    if e.date == day && e.hours.Open? then SessionsOn(day, e.hours.sessions) else []
  }

  lemma DayIntervalsOfOne(e: DayEntry, day: Date)
    ensures DayIntervals([e], day) == EntryIntervals(e, day)
  {
    assert [e][..0] == [];
  }

  lemma DayIntervalsOfTwo(e0: DayEntry, e1: DayEntry, day: Date)
    ensures DayIntervals([e0, e1], day) == EntryIntervals(e0, day) + EntryIntervals(e1, day)
  {
    assert [e0, e1][..1] == [e0];
    DayIntervalsOfOne(e0, day);
  }

  lemma TwoEntriesText(d0: Date, d1: Date, s: Session)
    ensures RenderHours([DayEntry(d0, Open([s])), DayEntry(d1, Open([s]))])
         == FormatYmd(d0) + ":" + RenderSession(s) + ";" + FormatYmd(d1) + ":" + RenderSession(s)
  {
    RenderOpenOne(d0, s);
    RenderOpenOne(d1, s);
    RenderTwo(DayEntry(d0, Open([s])), DayEntry(d1, Open([s])));
  }

  /** The single-session text of the test suite, with one entry per day. */
  lemma SingleSessionText()
    ensures RenderHours([DayEntry(Date(2025, 1, 2), Open([NineToFour()])), DayEntry(Date(2025, 1, 3), Open([NineToFour()]))])
         == "20250102:0930-1600;20250103:0930-1600"
  {
    RenderedSessionTexts();
    RenderedDateTexts();
    TwoEntriesText(Date(2025, 1, 2), Date(2025, 1, 3), NineToFour());
    SingleSessionGlue(FormatYmd(Date(2025, 1, 2)), RenderSession(NineToFour()), FormatYmd(Date(2025, 1, 3)));
  }

  lemma SingleSessionGlue(a: string, b: string, c: string)
    requires a == "20250102" && b == "0930-1600" && c == "20250103"
    ensures a + ":" + b + ";" + c + ":" + b == "20250102:0930-1600;20250103:0930-1600"
  {
  }

  lemma SingleSessionExpected()
    ensures ExpectedIntervals([DayEntry(Date(2025, 1, 2), Open([NineToFour()])), DayEntry(Date(2025, 1, 3), Open([NineToFour()]))], Date(2025, 1, 3))
         == [Interval(DateTime(2025, 1, 3, 9, 30, 0, 0), DateTime(2025, 1, 3, 16, 0, 0, 0))]
  {
    var entries := [DayEntry(Date(2025, 1, 2), Open([NineToFour()])), DayEntry(Date(2025, 1, 3), Open([NineToFour()]))];
    DayIntervalsOfTwo(entries[0], entries[1], Date(2025, 1, 3));
    assert !ClosedOn(entries, Date(2025, 1, 3));
  }

  /** `test_parse_hours_single_session_same_day`: only the 20250103 session is returned. */
  lemma ExampleSingleSessionSameDay()
    ensures ParsedHours("20250102:0930-1600;20250103:0930-1600", "20250103") ==
            Success([Interval(DateTime(2025, 1, 3, 9, 30, 0, 0), DateTime(2025, 1, 3, 16, 0, 0, 0))])
  {
    SingleSessionText();
    RenderedDateTexts();
    SingleSessionExpected();
    ParseRenderedHours([DayEntry(Date(2025, 1, 2), Open([NineToFour()])), DayEntry(Date(2025, 1, 3), Open([NineToFour()]))], Date(2025, 1, 3));
  }

  lemma MultipleSessionsText()
    ensures RenderHours([DayEntry(Date(2025, 1, 3), Open([NineToNoon(), OneToFour()]))]) == "20250103:0930-1200,1300-1600"
  {
    RenderedSessionTexts();
    RenderedDateTexts();
    RenderOpenTwo(Date(2025, 1, 3), NineToNoon(), OneToFour());
    RenderOne(DayEntry(Date(2025, 1, 3), Open([NineToNoon(), OneToFour()])));
    MultipleSessionsGlue(FormatYmd(Date(2025, 1, 3)), RenderSession(NineToNoon()), RenderSession(OneToFour()));
  }

  lemma MultipleSessionsGlue(a: string, b: string, c: string)
    requires a == "20250103" && b == "0930-1200" && c == "1300-1600"
    ensures a + ":" + b + "," + c == "20250103:0930-1200,1300-1600"
  {
  }

  lemma MultipleSessionsExpected()
    ensures ExpectedIntervals([DayEntry(Date(2025, 1, 3), Open([NineToNoon(), OneToFour()]))], Date(2025, 1, 3))
         == [Interval(DateTime(2025, 1, 3, 9, 30, 0, 0), DateTime(2025, 1, 3, 12, 0, 0, 0)),
             Interval(DateTime(2025, 1, 3, 13, 0, 0, 0), DateTime(2025, 1, 3, 16, 0, 0, 0))]
  {
    var entries := [DayEntry(Date(2025, 1, 3), Open([NineToNoon(), OneToFour()]))];
    DayIntervalsOfOne(entries[0], Date(2025, 1, 3));
    assert !ClosedOn(entries, Date(2025, 1, 3));
  }

  /** `test_parse_hours_multiple_sessions`: both sessions of the day, in order. */
  lemma ExampleMultipleSessions()
    ensures ParsedHours("20250103:0930-1200,1300-1600", "20250103") ==
            Success([Interval(DateTime(2025, 1, 3, 9, 30, 0, 0), DateTime(2025, 1, 3, 12, 0, 0, 0)),
                     Interval(DateTime(2025, 1, 3, 13, 0, 0, 0), DateTime(2025, 1, 3, 16, 0, 0, 0))])
  {
    MultipleSessionsText();
    RenderedDateTexts();
    MultipleSessionsExpected();
    ParseRenderedHours([DayEntry(Date(2025, 1, 3), Open([NineToNoon(), OneToFour()]))], Date(2025, 1, 3));
  }

  /** `test_parse_hours_closed_day_returns_empty` */
  lemma ExampleClosedDay()
    ensures ParsedHours("20250103:CLOSED", "20250103") == Success([])
  {
    var e := DayEntry(Date(2025, 1, 3), Closed);
    RenderedDateTexts();
    RenderOne(e);
    ClosedGlue(FormatYmd(e.date));
    assert ClosedOn([e], e.date);
    ParseRenderedHours([e], e.date);
  }

  lemma ClosedGlue(a: string)
    requires a == "20250103"
    ensures a + ":" + "CLOSED" == "20250103:CLOSED"
  {
  }

  /** `test_parse_hours_ignores_other_days` */
  lemma ExampleOtherDay()
    ensures ParsedHours("20250102:0930-1600", "20250103") == Success([])
  {
    var e := DayEntry(Date(2025, 1, 2), Open([NineToFour()]));
    RenderedSessionTexts();
    RenderedDateTexts();
    RenderOpenOne(e.date, NineToFour());
    RenderOne(e);
    OtherDayGlue(FormatYmd(e.date), RenderSession(NineToFour()));
    DayIntervalsOfOne(e, Date(2025, 1, 3));
    assert !ClosedOn([e], Date(2025, 1, 3));
    ParseRenderedHours([e], Date(2025, 1, 3));
  }

  lemma OtherDayGlue(a: string, b: string)
    requires a == "20250102" && b == "0930-1600"
    ensures a + ":" + b == "20250102:0930-1600"
  {
  }
}
