/**
 * `BAR_SECONDS` and `HistorySpec.duration_str`: how much history to ask IB
 * for so that `length + warmup_bars` bars of the chosen size come back,
 * written as IB's duration text `"<n> S|D|W|M|Y"`.
 */
module HistoryFilter {
  import opened Results
  import opened Text

  datatype BarSize = Sec5 | Sec15 | Min1 | Min5 | Min15 | Hour1 | Day1
  {
    /** The enum's value, IB's `barSizeSetting` text. */
    function Setting(): string {
      match this
      case Sec5 => "5 secs"
      case Sec15 => "15 secs"
      case Min1 => "1 min"
      case Min5 => "5 mins"
      case Min15 => "15 mins"
      case Hour1 => "1 hour"
      case Day1 => "1 day"
    }

    /** `BAR_SECONDS[self]`: every bar size fits a whole number of times into a day. */
    function Seconds(): (n: int)
      ensures 5 <= n <= 86400 && 86400 % n == 0
    {
      match this
      case Sec5 => 5
      case Sec15 => 15
      case Min1 => 60
      case Min5 => 5 * 60
      case Min15 => 15 * 60
      case Hour1 => 60 * 60
      case Day1 => 24 * 60 * 60
    }
  }

  /** Longer bars last longer, in the order the enum lists them. */
  lemma BarSecondsAscending()
    ensures Sec5.Seconds() < Sec15.Seconds() < Min1.Seconds() < Min5.Seconds()
            < Min15.Seconds() < Hour1.Seconds() < Day1.Seconds()
  {
  }

  /** `HistorySpec(bar_size, length, warmup_bars=50, what_to_show="TRADES", use_rth=True)` */
  datatype HistorySpec = HistorySpec(barSize: BarSize, length: int, warmupBars: int := 50,
                                     whatToShow: string := "TRADES", useRth: bool := true)

  datatype DurationUnit = S | D | W | M | Y

  /** An IB duration: `count` of `unit`. */
  datatype Duration = Duration(count: int, unit: DurationUnit)

  function UnitLetter(u: DurationUnit): char {
    match u
    case S => 'S'
    case D => 'D'
    case W => 'W'
    case M => 'M'
    case Y => 'Y'
  }

  function UnitOfLetter(c: char): Option<DurationUnit> {
    match c
    case 'S' => Some(S)
    case 'D' => Some(D)
    case 'W' => Some(W)
    case 'M' => Some(M)
    case 'Y' => Some(Y)
    case _ => None
  }

  /** The length of one unit in seconds, with a week of 7, a month of 30 and a year of 365 days. */
  function UnitSeconds(u: DurationUnit): nat {
    match u
    case S => 1
    case D => 86400
    case W => 7 * 86400
    case M => 30 * 86400
    case Y => 365 * 86400
  }

  /** `f"{n} {unit}"` */
  function Render(d: Duration): string {
    FormatInt(d.count) + " " + [UnitLetter(d.unit)]
  }

  /** Reads a duration text back: an integer, one space, one unit letter. */
  function ParseDuration(s: string): Option<Duration> {
    if |s| < 3 || s[|s| - 2] != ' ' then None
    else
      match (ParseInt(s[..|s| - 2]), UnitOfLetter(s[|s| - 1]))
      case (Some(n), Some(u)) => Some(Duration(n, u))
      case _ => None
  }

  /** The duration text determines the duration. */
  lemma ParseRender(d: Duration)
    ensures ParseDuration(Render(d)) == Some(d)
  {
    var s := Render(d);
    assert s[..|s| - 2] == FormatInt(d.count);
    FormatIntRoundTrip(d.count);
  }

  /** `math.ceil(a / b)` for a positive divisor. */
  function CeilDiv(a: int, b: int): (q: int)
    requires b > 0
    ensures b * (q - 1) < a <= b * q
  {
    -((-a) / b)
  }

  function BarsNeeded(h: HistorySpec): int {
    h.length + h.warmupBars
  }

  function SecondsNeeded(h: HistorySpec): int {
    BarsNeeded(h) * h.barSize.Seconds()
  }

  /**
   * `int(math.ceil(seconds / 86400) * 1.6) + 2`: whole days, stretched for
   * weekends and holidays. For integer `days`, `int(days * 1.6)` is
   * `(8 * days) / 5`.
   */
  function PaddedDays(seconds: int): (days: int)
    requires seconds > 0
    ensures days >= 3 && 86400 * (days - 2) >= seconds
  {
    var whole := CeilDiv(seconds, 86400);
    (8 * whole) / 5 + 2
  }

  /**
   * The duration `duration_str` writes: seconds exactly when the bars need
   * at most an hour, and otherwise a count that stays within the range
   * its unit is chosen for.
   */
  function Estimate(h: HistorySpec): (e: Duration)
    ensures e.unit == S <==> SecondsNeeded(h) <= 3600
    ensures e.unit == D ==> 3 <= e.count <= 6
    ensures e.unit == W ==> 1 <= e.count <= 9
    ensures e.unit == M ==> 3 <= e.count <= 13
    ensures e.unit == Y ==> e.count >= 2
  {
    var seconds := SecondsNeeded(h);
    if seconds <= 60 * 60 then Duration(seconds, S)
    else
      var days := PaddedDays(seconds);
      if days <= 6 then Duration(days, D)
      else if days <= 60 then Duration(CeilDiv(days, 7), W)
      else if days <= 365 then Duration(CeilDiv(days, 30), M)
      else Duration(CeilDiv(days, 365), Y)
  }

  /** `HistorySpec.duration_str()` */
  function DurationStr(h: HistorySpec): (s: string)
    ensures ParseDuration(s) == Some(Estimate(h))
  {
    ParseRender(Estimate(h));
    Render(Estimate(h))
  }

  /** Up to an hour of bars is asked for in seconds, exactly as many as needed. */
  lemma ShortHistoryInSeconds(h: HistorySpec)
    requires SecondsNeeded(h) <= 3600
    ensures DurationStr(h) == FormatInt(SecondsNeeded(h)) + " S"
  {
  }

  /**
   * Beyond an hour the unit follows the padded day count: days up to 6,
   * weeks up to 60 days, months up to 365, years beyond; since the padded
   * count is at least 3, a day-count answer is always 3 to 6 days.
   */
  lemma UnitByPaddedDays(h: HistorySpec)
    requires SecondsNeeded(h) > 3600
    ensures var days := PaddedDays(SecondsNeeded(h));
            var e := Estimate(h);
            && (e.unit == D <==> days <= 6)
            && (e.unit == W <==> 6 < days <= 60)
            && (e.unit == M <==> 60 < days <= 365)
            && (e.unit == Y <==> 365 < days)
            && (e.unit == D ==> 3 <= e.count <= 6)
            && e.unit != S
  {
  }

  /**
   * The returned span never falls short of the time the bars need, and
   * for at least one bar it names at least one unit.
   */
  lemma EstimateCovers(h: HistorySpec)
    ensures SpanSeconds(h) >= SecondsNeeded(h)
    ensures BarsNeeded(h) >= 1 ==> Estimate(h).count >= 1
  {
    var seconds := SecondsNeeded(h);
    if BarsNeeded(h) >= 1 {
      assert seconds >= 5 by {
        assert seconds == BarsNeeded(h) * h.barSize.Seconds();
      }
    }
    if seconds > 3600 {
      var days := PaddedDays(seconds);
      SpanInDays(h);
      DaySpanCovers(days);
    }
  }

  /** Rounding a day count up to whole weeks, months or years never loses a day. */
  lemma DaySpanCovers(days: int)
    requires days >= 3
    ensures DaySpan(days) >= days
  {
    if days > 6 {
      if days <= 60 {
        assert 7 * CeilDiv(days, 7) >= days;
      } else if days <= 365 {
        assert 30 * CeilDiv(days, 30) >= days;
      } else {
        assert 365 * CeilDiv(days, 365) >= days;
      }
    }
  }

  /** The span `duration_str` asks for, in seconds. */
  function SpanSeconds(h: HistorySpec): int {
    Estimate(h).count * UnitSeconds(Estimate(h).unit)
  }

  /** Needing more time never leads to a shorter request. */
  lemma SpanMonotone(h1: HistorySpec, h2: HistorySpec)
    requires SecondsNeeded(h1) <= SecondsNeeded(h2)
    ensures SpanSeconds(h1) <= SpanSeconds(h2)
  {
    var s1, s2 := SecondsNeeded(h1), SecondsNeeded(h2);
    if s1 > 3600 {
      var d1, d2 := PaddedDays(s1), PaddedDays(s2);
      assert CeilDiv(s1, 86400) <= CeilDiv(s2, 86400);
      assert d1 <= d2;
      SpanInDays(h1);
      SpanInDays(h2);
      DaySpanMonotone(d1, d2);
    } else if s2 > 3600 {
      SpanInDays(h2);
      assert DaySpan(PaddedDays(s2)) >= 3;
    }
  }

  /** The span, in days, for a padded day count. */
  function DaySpan(days: int): int {
    if days <= 6 then days
    else if days <= 60 then 7 * CeilDiv(days, 7)
    else if days <= 365 then 30 * CeilDiv(days, 30)
    else 365 * CeilDiv(days, 365)
  }

  lemma SpanInDays(h: HistorySpec)
    requires SecondsNeeded(h) > 3600
    ensures SpanSeconds(h) == 86400 * DaySpan(PaddedDays(SecondsNeeded(h)))
  {
  }

  lemma DaySpanMonotone(d1: int, d2: int)
    requires 3 <= d1 <= d2
    ensures DaySpan(d1) <= DaySpan(d2)
  {
    if d1 <= 6 {
    } else if d1 <= 60 {
      if d2 <= 60 {
        CeilDivMonotone(d1, d2, 7);
      } else {
        assert CeilDiv(d1, 7) <= 9;
      }
    } else if d1 <= 365 {
      if d2 <= 365 {
        CeilDivMonotone(d1, d2, 30);
      } else {
        assert CeilDiv(d1, 30) <= 13;
      }
    } else {
      CeilDivMonotone(d1, d2, 365);
    }
  }

  lemma CeilDivMonotone(a1: int, a2: int, b: int)
    requires a1 <= a2 && b > 0
    ensures CeilDiv(a1, b) <= CeilDiv(a2, b)
  {
    var q1, q2 := CeilDiv(a1, b), CeilDiv(a2, b);
    assert b * (q1 - 1 - q2) == b * (q1 - 1) - b * q2;
    NegativeProduct(b, q1 - 1 - q2);
  }

  lemma NegativeProduct(b: int, k: int)
    requires b > 0
    ensures b * k < 0 ==> k < 0
  {
  }

  /** `Filter`'s default history: one daily bar plus 50 warm-up bars is 51 days, padded to 83, asked for as 3 months. */
  lemma DefaultFilterHistory()
    ensures DurationStr(HistorySpec(Day1, 1)) == "3 M"
  {
    var h := HistorySpec(Day1, 1);
    assert SecondsNeeded(h) == 51 * 86400;
    assert CeilDiv(51 * 86400, 86400) == 51;
    assert PaddedDays(51 * 86400) == 83;
    assert CeilDiv(83, 30) == 3;
    assert FormatInt(3) == "3";
  }

  /** Five one-minute bars plus 50 warm-up bars: 3300 seconds. */
  lemma MinuteBarsInSeconds()
    ensures DurationStr(HistorySpec(Min1, 5)) == "3300 S"
  {
    var h := HistorySpec(Min1, 5);
    assert SecondsNeeded(h) == 3300;
    assert FormatInt(3300) == "3300" by {
      assert FormatNat(3300) == FormatNat(330) + "0";
      assert FormatNat(330) == FormatNat(33) + "0";
      assert FormatNat(33) == "33";
    }
  }

  /** 400 daily bars: 640 + 2 padded days, asked for as 2 years. */
  lemma FourHundredDailyBars()
    ensures DurationStr(HistorySpec(Day1, 400, 0)) == "2 Y"
  {
    var h := HistorySpec(Day1, 400, 0);
    assert SecondsNeeded(h) == 400 * 86400;
    assert CeilDiv(400 * 86400, 86400) == 400;
    assert PaddedDays(400 * 86400) == 642;
    assert CeilDiv(642, 365) == 2;
    assert FormatInt(2) == "2";
  }
}
