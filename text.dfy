/**
 * The string operations the parsers lean on, with Python's meaning:
 * `str.split(sep)`, `str.split(sep, 1)`, clamped slicing `s[i:j]`,
 * `int()` of a decimal text, and zero-padded decimal formatting.
 */
module Text {
  import opened Results

  /** `sep.join(parts)` */
  function Join(parts: seq<string>, sep: char): string
  {
    if |parts| == 0 then ""
    else if |parts| == 1 then parts[0]
    else parts[0] + [sep] + Join(parts[1..], sep)
  }

  /**
   * `s.split(sep)`: the maximal separator-free pieces between separators,
   * empty pieces kept, so there is always at least one piece and `""`
   * splits into `[""]`.
   */
  function Split(s: string, sep: char): (parts: seq<string>)
    ensures |parts| >= 1
    ensures forall i :: 0 <= i < |parts| ==> sep !in parts[i]
    ensures Join(parts, sep) == s
    decreases |s|
  {
    if |s| == 0 then [""]
    else
      var rest := Split(s[1..], sep);
      if s[0] == sep then
        assert ([""] + rest)[1..] == rest;
        assert s == [sep] + s[1..];
        [""] + rest
      else
        var parts := [[s[0]] + rest[0]] + rest[1..];
        assert parts[1..] == rest[1..];
        assert s == [s[0]] + s[1..];
        assert |rest| >= 2 ==> Join(rest, sep) == rest[0] + [sep] + Join(rest[1..], sep);
        parts
  }

  /** A separator in the middle splits into the pieces of either side. */
  lemma {:induction false} SplitConcat(a: string, b: string, sep: char)
    ensures Split(a + [sep] + b, sep) == Split(a, sep) + Split(b, sep)
    decreases |a|
  {
    var s := a + [sep] + b;
    if |a| == 0 {
      assert s[1..] == b;
    } else {
      assert s[1..] == a[1..] + [sep] + b;
      SplitConcat(a[1..], b, sep);
    }
  }

  /** A text without the separator is a single piece. */
  lemma {:induction false} SplitWithoutSeparator(w: string, sep: char)
    requires sep !in w
    ensures Split(w, sep) == [w]
    decreases |w|
  {
    if |w| > 0 {
      SplitWithoutSeparator(w[1..], sep);
      assert w == [w[0]] + w[1..];
    }
  }

  /** Splitting undoes joining whenever no piece holds the separator. */
  lemma {:induction false} SplitJoin(parts: seq<string>, sep: char)
    requires |parts| >= 1
    requires forall i :: 0 <= i < |parts| ==> sep !in parts[i]
    ensures Split(Join(parts, sep), sep) == parts
    decreases |parts|
  {
    if |parts| == 1 {
      SplitWithoutSeparator(parts[0], sep);
    } else {
      SplitJoin(parts[1..], sep);
      SplitConcat(parts[0], Join(parts[1..], sep), sep);
      SplitWithoutSeparator(parts[0], sep);
      assert parts == [parts[0]] + parts[1..];
    }
  }

  /** Two pieces join around one separator. */
  lemma JoinTwo(a: string, b: string, sep: char)
    ensures Join([a, b], sep) == a + [sep] + b
  {
    assert [a, b][1..] == [b];
  }

  /** A joined text starts with its first piece. */
  lemma JoinStartsWithFirst(parts: seq<string>, sep: char)
    requires |parts| >= 1
    ensures |Join(parts, sep)| >= |parts[0]|
    ensures Join(parts, sep)[..|parts[0]|] == parts[0]
  {
  }

  /**
   * `s.split(sep, 1)` unpacked into two names: `None` when there is no
   * separator (Python raises on the unpacking), otherwise the text before
   * the first separator and everything after it.
   */
  function SplitOnce(s: string, sep: char): (r: Option<(string, string)>)
    ensures r.None? <==> sep !in s
    ensures r.Some? ==> s == r.value.0 + [sep] + r.value.1 && sep !in r.value.0
    decreases |s|
  {
    if |s| == 0 then None
    else if s[0] == sep then
      assert s == [] + [sep] + s[1..];
      Some(("", s[1..]))
    else
      match SplitOnce(s[1..], sep)
      case None =>
        assert forall k :: 0 <= k < |s| ==> s[k] == sep ==> k > 0 && s[1..][k - 1] == sep;
        None
      case Some((head, tail)) =>
        assert s == [s[0]] + s[1..];
        assert s[1..] == head + [sep] + tail;
        Some(([s[0]] + head, tail))
  }

  /** The split is at the first separator: any separator-free head is the one. */
  lemma {:induction false} SplitOnceAt(head: string, sep: char, tail: string)
    requires sep !in head
    ensures SplitOnce(head + [sep] + tail, sep) == Some((head, tail))
    decreases |head|
  {
    var s := head + [sep] + tail;
    if |head| == 0 {
      assert s[1..] == tail;
    } else {
      assert s[1..] == head[1..] + [sep] + tail;
      SplitOnceAt(head[1..], sep, tail);
      assert [head[0]] + head[1..] == head;
    }
  }

  /** Python's slice `s[i:j]`: indices past the end are clamped, never an error. */
  function Slice(s: string, i: nat, j: nat): (r: string)
    requires i <= j
    ensures |r| == (if j <= |s| then j - i else if i <= |s| then |s| - i else 0)
  {
    var lo := if i <= |s| then i else |s|;
    var hi := if j <= |s| then j else |s|;
    s[lo..hi]
  }

  predicate IsDigit(c: char) {
    '0' <= c <= '9'
  }

  predicate AllDigits(s: string) {
    forall i :: 0 <= i < |s| ==> IsDigit(s[i])
  }

  function DigitValue(c: char): (d: nat)
    requires IsDigit(c)
    ensures d < 10
  {
    (c as int) - ('0' as int)
  }

  function DigitChar(d: nat): (c: char)
    requires d < 10
    ensures IsDigit(c) && DigitValue(c) == d
  {
    (('0' as int) + d) as char
  }

  function Pow10(n: nat): (p: nat)
    ensures p >= 1
  {
    if n == 0 then 1 else 10 * Pow10(n - 1)
  }

  /**
   * `int(s)` for a decimal text: `None` (Python raises) unless the text is
   * one or more ASCII digits.
   */
  function ParseNat(s: string): (r: Option<nat>)
    ensures r.Some? <==> |s| > 0 && AllDigits(s)
    decreases |s|
  {
    if |s| == 0 || !IsDigit(s[|s| - 1]) then None
    else if |s| == 1 then Some(DigitValue(s[0]))
    else
      match ParseNat(s[..|s| - 1])
      case None => None
      case Some(v) => Some(10 * v + DigitValue(s[|s| - 1]))
  }

  /** The last `width` decimal digits of `n`, zero-padded (`f"{n:0{width}d}"` for small `n`). */
  function Pad(n: nat, width: nat): (s: string)
    ensures |s| == width && AllDigits(s)
  {
    if width == 0 then "" else Pad(n / 10, width - 1) + [DigitChar(n % 10)]
  }

  /** Reading back a padded number gives the number when it fits the width. */
  lemma {:induction false} ParsePad(n: nat, width: nat)
    requires 1 <= width && n < Pow10(width)
    ensures ParseNat(Pad(n, width)) == Some(n)
  {
    var s := Pad(n, width);
    assert s[..|s| - 1] == Pad(n / 10, width - 1);
    if width > 1 {
      ParsePad(n / 10, width - 1);
    }
  }

  /** Padding the value of a digit text to its own length gives the text back, leading zeros included. */
  lemma {:induction false} PadParseNat(s: string)
    requires |s| >= 1 && AllDigits(s)
    ensures ParseNat(s).Some? && Pad(ParseNat(s).value, |s|) == s
    decreases |s|
  {
    var c := s[|s| - 1];
    assert DigitChar(DigitValue(c)) == c;
    if |s| == 1 {
      assert Pad(DigitValue(c), 1) == [DigitChar(DigitValue(c))];
    } else {
      var init := s[..|s| - 1];
      PadParseNat(init);
      var v := ParseNat(init).value;
      var n := 10 * v + DigitValue(c);
      assert n / 10 == v && n % 10 == DigitValue(c);
      assert s == init + [c];
    }
  }

  /** `str(n)` for a natural number: decimal digits without leading zeros. */
  function FormatNat(n: nat): (s: string)
    ensures |s| >= 1 && AllDigits(s)
    ensures |s| > 1 ==> s[0] != '0'
  {
    if n < 10 then [DigitChar(n)] else FormatNat(n / 10) + [DigitChar(n % 10)]
  }

  lemma {:induction false} ParseFormatNat(n: nat)
    ensures ParseNat(FormatNat(n)) == Some(n)
  {
    var s := FormatNat(n);
    if n >= 10 {
      assert s[..|s| - 1] == FormatNat(n / 10);
      ParseFormatNat(n / 10);
    }
  }

  /** `str(i)` for an integer. */
  function FormatInt(i: int): (s: string)
    ensures |s| >= 1
  {
    if i < 0 then "-" + FormatNat(-i) else FormatNat(i)
  }

  /** `int(s)` for an optionally negative decimal text. */
  function ParseInt(s: string): Option<int>
  {
    if |s| > 0 && s[0] == '-' then
      match ParseNat(s[1..])
      case None => None
      case Some(v) => var n: int := v; Some(-n)
    else
      match ParseNat(s)
      case None => None
      case Some(v) => Some(v)
  }

  lemma FormatIntRoundTrip(i: int)
    ensures ParseInt(FormatInt(i)) == Some(i)
  {
    var s := FormatInt(i);
    if i < 0 {
      assert s[0] == '-' && s[1..] == FormatNat(-i);
      ParseFormatNat(-i);
      assert ParseNat(s[1..]) == Some(-i);
    } else {
      assert s == FormatNat(i);
      assert IsDigit(s[0]);
      ParseFormatNat(i);
      assert ParseNat(s) == Some(i);
    }
  }
}
