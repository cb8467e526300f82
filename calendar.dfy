/**
 * Python `datetime` values as the parser and the session test use them:
 * the constructor's range checks, comparison of two datetimes that carry
 * the same time zone (field by field), and `strftime("%Y%m%d")`.
 */
module Calendar {
  import opened Results
  import opened Text

  datatype Date = Date(year: nat, month: nat, day: nat)

  datatype DateTime = DateTime(year: nat, month: nat, day: nat,
                               hour: nat, minute: nat, second: nat, microsecond: nat)
  {
    function CalendarDate(): Date {
      Date(year, month, day)
    }
  }

  predicate IsLeapYear(year: int) {
    year % 4 == 0 && (year % 100 != 0 || year % 400 == 0)
  }

  function DaysInMonth(year: int, month: int): (n: nat)
    requires 1 <= month <= 12
    ensures 28 <= n <= 31
    ensures n == 29 <==> month == 2 && IsLeapYear(year)
  {
    if month == 2 then (if IsLeapYear(year) then 29 else 28)
    else if month in {4, 6, 9, 11} then 30
    else 31
  }

  /** The dates `datetime(year, month, day, ...)` accepts (MINYEAR 1 to MAXYEAR 9999). */
  predicate ValidDate(d: Date) {
    1 <= d.year <= 9999 && 1 <= d.month <= 12 && 1 <= d.day <= DaysInMonth(d.year, d.month)
  }

  /** The field values the `datetime` constructor accepts; anything else raises. */
  predicate ValidDateTime(t: DateTime) {
    ValidDate(t.CalendarDate()) && t.hour < 24 && t.minute < 60 && t.second < 60 && t.microsecond < 1000000
  }

  /**
   * `a <= b` for two datetimes with the same tzinfo: Python then ignores the
   * zone and compares the fields from the year down.
   */
  predicate NotAfter(a: DateTime, b: DateTime) {
    if a.year != b.year then a.year < b.year
    else if a.month != b.month then a.month < b.month
    else if a.day != b.day then a.day < b.day
    else if a.hour != b.hour then a.hour < b.hour
    else if a.minute != b.minute then a.minute < b.minute
    else if a.second != b.second then a.second < b.second
    else a.microsecond <= b.microsecond
  }

  /** The order is total, antisymmetric and transitive, as Python's is. */
  lemma NotAfterTotalOrder(a: DateTime, b: DateTime, c: DateTime)
    ensures NotAfter(a, a)
    ensures NotAfter(a, b) || NotAfter(b, a)
    ensures NotAfter(a, b) && NotAfter(b, a) ==> a == b
    ensures NotAfter(a, b) && NotAfter(b, c) ==> NotAfter(a, c)
  {
  }

  /** `d.strftime("%Y%m%d")`: four-digit year, two-digit month and day. */
  function FormatYmd(d: Date): (s: string)
    ensures |s| == 8 && AllDigits(s)
  {
    Pad(d.year, 4) + Pad(d.month, 2) + Pad(d.day, 2)
  }

  /** The fixed digit positions of a formatted date read back as its fields. */
  lemma {:induction false} FormatYmdFields(d: Date)
    requires d.year < 10000 && d.month < 100 && d.day < 100
    ensures ParseNat(Slice(FormatYmd(d), 0, 4)) == Some(d.year)
    ensures ParseNat(Slice(FormatYmd(d), 4, 6)) == Some(d.month)
    ensures ParseNat(Slice(FormatYmd(d), 6, 8)) == Some(d.day)
  {
    var s := FormatYmd(d);
    assert Slice(s, 0, 4) == Pad(d.year, 4);
    assert Slice(s, 4, 6) == Pad(d.month, 2);
    assert Slice(s, 6, 8) == Pad(d.day, 2);
    assert Pow10(4) == 10000 && Pow10(2) == 100;
    ParsePad(d.year, 4);
    ParsePad(d.month, 2);
    ParsePad(d.day, 2);
  }

  /** Distinct valid dates never format to the same day string. */
  lemma FormatYmdInjective(a: Date, b: Date)
    requires ValidDate(a) && ValidDate(b)
    ensures FormatYmd(a) == FormatYmd(b) <==> a == b
  {
    if FormatYmd(a) == FormatYmd(b) {
      FormatYmdFields(a);
      FormatYmdFields(b);
    }
  }
}
