/**
 * `total_seconds(t)`: a `datetime.time` as seconds since midnight,
 * `hour * 3600 + minute * 60 + second + microsecond / 1_000_000`.
 */
module Helper {

  datatype Time = Time(hour: nat, minute: nat, second: nat, microsecond: nat)

  /** The fields `datetime.time` accepts. */
  predicate ValidTime(t: Time) {
    t.hour < 24 && t.minute < 60 && t.second < 60 && t.microsecond < 1000000
  }

  /** Whole microseconds since midnight. */
  function Micros(t: Time): nat {
    ((t.hour * 60 + t.minute) * 60 + t.second) * 1000000 + t.microsecond
  }

  function TotalSeconds(t: Time): (s: real)
    ensures s * 1000000.0 == Micros(t) as real
  {
    (t.hour * 3600 + t.minute * 60 + t.second) as real + t.microsecond as real / 1000000.0
  }

  /** Without microseconds the result is a whole number of seconds. */
  lemma WholeSecondsWithoutMicros(t: Time)
    requires t.microsecond == 0
    ensures TotalSeconds(t) == TotalSeconds(t).Floor as real
  {
    assert TotalSeconds(t) == (t.hour * 3600 + t.minute * 60 + t.second) as real;
  }

  /** A valid time lies in the first day: from 0 up to, not including, 86400 seconds. */
  lemma WithinOneDay(t: Time)
    requires ValidTime(t)
    ensures 0.0 <= TotalSeconds(t) < 86400.0
  {
    assert Micros(t) < 86400 * 1000000 by {
      assert (t.hour * 60 + t.minute) * 60 + t.second <= 86399;
    }
  }

  /** `(hour, minute, second, microsecond)` compared from the hour down. */
  predicate EarlierThan(a: Time, b: Time) {
    if a.hour != b.hour then a.hour < b.hour
    else if a.minute != b.minute then a.minute < b.minute
    else if a.second != b.second then a.second < b.second
    else a.microsecond < b.microsecond
  }

  /** For valid times, a larger result means exactly a later time of day. */
  lemma OrderPreserved(a: Time, b: Time)
    requires ValidTime(a) && ValidTime(b)
    ensures EarlierThan(a, b) <==> TotalSeconds(a) < TotalSeconds(b)
  {
    MicrosOrder(a, b);
  }

  lemma MicrosOrder(a: Time, b: Time)
    requires ValidTime(a) && ValidTime(b)
    ensures EarlierThan(a, b) <==> Micros(a) < Micros(b)
  {
    var sa, sb := (a.hour * 60 + a.minute) * 60 + a.second, (b.hour * 60 + b.minute) * 60 + b.second;
    assert Micros(a) == sa * 1000000 + a.microsecond;
    assert Micros(b) == sb * 1000000 + b.microsecond;
    assert EarlierThan(a, b) <==> sa < sb || (sa == sb && a.microsecond < b.microsecond) by {
      var ma, mb := a.hour * 60 + a.minute, b.hour * 60 + b.minute;
      assert a.hour < b.hour ==> ma < mb && ma + 1 <= mb;
      assert ma < mb ==> sa < sb;
      assert a.hour == b.hour ==> (ma < mb <==> a.minute < b.minute);
    }
    if sa < sb {
      assert sa * 1000000 + 1000000 <= sb * 1000000;
    }
    if sb < sa {
      assert sb * 1000000 + 1000000 <= sa * 1000000;
    }
  }

  /** The time of day `n` microseconds after midnight. */
  function FromMicros(n: nat): (t: Time)
    requires n < 86400 * 1000000
    ensures ValidTime(t) && Micros(t) == n
  {
    var secs := n / 1000000;
    Time(secs / 3600, (secs / 60) % 60, secs % 60, n % 1000000)
  }

  /** Seconds since midnight name a valid time uniquely. */
  lemma TotalSecondsInjective(a: Time, b: Time)
    requires ValidTime(a) && ValidTime(b)
    ensures TotalSeconds(a) == TotalSeconds(b) <==> a == b
  {
    MicrosOrder(a, b);
    MicrosOrder(b, a);
  }
}
