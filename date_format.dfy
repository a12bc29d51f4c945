/**
 The `%Y-%m-%d` text form of a date (the extended calendar-date format of
 ISO 8601:2004, section 4.1.2.2): four-digit year, two-digit month and day,
 separated by hyphens.
 */
module DateFormat {
  import opened Calendar
  import opened Wrappers

  predicate IsDigit(c: char) {
    '0' <= c <= '9'
  }

  function DigitChar(k: int): (c: char)
    requires 0 <= k < 10
    ensures IsDigit(c) && DigitValue(c) == k
  {
    ('0' as int + k) as char
  }

  function DigitValue(c: char): (k: int)
    requires IsDigit(c)
    ensures 0 <= k < 10
  {
    c as int - '0' as int
  }

  function Pad2(n: int): (s: string)
    requires 0 <= n < 100
    ensures |s| == 2 && IsDigit(s[0]) && IsDigit(s[1])
    ensures 10 * DigitValue(s[0]) + DigitValue(s[1]) == n
  {
    [DigitChar(n / 10), DigitChar(n % 10)]
  }

  function Pad4(n: int): (s: string)
    requires 0 <= n < 10000
    ensures |s| == 4 && forall i :: 0 <= i < 4 ==> IsDigit(s[i])
    ensures 100 * (10 * DigitValue(s[0]) + DigitValue(s[1])) + 10 * DigitValue(s[2]) + DigitValue(s[3]) == n
  {
    Pad2(n / 100) + Pad2(n % 100)
  }

  /** `d.strftime('%Y-%m-%d')` for a date Python can hold. */
  function Format(d: Date): (s: string)
    requires ValidDate(d) && InRange(d)
    ensures |s| == 10 && s[4] == '-' && s[7] == '-'
  {
    Pad4(d.year) + "-" + Pad2(d.month) + "-" + Pad2(d.day)
  }

  /** The number written by two digit characters. */
  function TwoDigits(a: char, b: char): int
    requires IsDigit(a) && IsDigit(b)
  {
    10 * DigitValue(a) + DigitValue(b)
  }

  predicate WellFormed(s: string) {
    |s| == 10 && s[4] == '-' && s[7] == '-' &&
    IsDigit(s[0]) && IsDigit(s[1]) && IsDigit(s[2]) && IsDigit(s[3]) &&
    IsDigit(s[5]) && IsDigit(s[6]) && IsDigit(s[8]) && IsDigit(s[9])
  }

  /**
   Reads a zero-padded `YYYY-MM-DD` string; None for any other text, for a
   year 0000 and for a day the month does not have.
   */
  function Parse(s: string): (r: Option<Date>)
    ensures r.Some? ==> ValidDate(r.value) && InRange(r.value)
  {
    if !WellFormed(s) then None
    else
      var d := Date(100 * TwoDigits(s[0], s[1]) + TwoDigits(s[2], s[3]),
                    TwoDigits(s[5], s[6]), TwoDigits(s[8], s[9]));
      if ValidDate(d) && InRange(d) then Some(d) else None
  }

  lemma DigitRoundTrip(c: char)
    requires IsDigit(c)
    ensures DigitChar(DigitValue(c)) == c
  {
  }

  /** Parsing a formatted date gives the date back. */
  lemma ParseFormat(d: Date)
    requires ValidDate(d) && InRange(d)
    ensures Parse(Format(d)) == Some(d)
  {
    var s := Format(d);
    assert s[..4] == Pad4(d.year);
    assert s[5..7] == Pad2(d.month);
    assert s[8..] == Pad2(d.day);
  }

  /** A string that parses is the formatted form of what it parses to. */
  lemma FormatParse(s: string)
    requires Parse(s).Some?
    ensures Format(Parse(s).value) == s
  {
    var d := Parse(s).value;
    var hi, lo := TwoDigits(s[0], s[1]), TwoDigits(s[2], s[3]);
    assert d.year / 100 == hi && d.year % 100 == lo;
    TwoDigitsRoundTrip(s[0], s[1]);
    TwoDigitsRoundTrip(s[2], s[3]);
    TwoDigitsRoundTrip(s[5], s[6]);
    TwoDigitsRoundTrip(s[8], s[9]);
    assert Format(d) == Pad2(hi) + Pad2(lo) + "-" + Pad2(d.month) + "-" + Pad2(d.day);
  }

  lemma TwoDigitsRoundTrip(a: char, b: char)
    requires IsDigit(a) && IsDigit(b)
    ensures Pad2(TwoDigits(a, b)) == [a, b]
  {
    var n := TwoDigits(a, b);
    assert n / 10 == DigitValue(a) && n % 10 == DigitValue(b);
    DigitRoundTrip(a);
    DigitRoundTrip(b);
  }

  /** Distinct dates have distinct text forms. */
  lemma FormatInjective(a: Date, b: Date)
    requires ValidDate(a) && InRange(a) && ValidDate(b) && InRange(b)
    requires Format(a) == Format(b)
    ensures a == b
  {
    ParseFormat(a);
    ParseFormat(b);
  }
}
