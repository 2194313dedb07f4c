/** The `%d/%m/%Y` rendering of a calendar date that the printer writes into
    the `Fecha` field, together with its inverse. */
module Dates {
  import opened Wrappers

  type Day = d: int | 1 <= d <= 31 witness 1
  type Month = m: int | 1 <= m <= 12 witness 1
  type Year = y: int | 1 <= y <= 9999 witness 1

  /** The day, month and year of a `datetime.date` or `pandas.Timestamp`
      cell. Each component is only range-checked, so the type also admits
      impossible days such as 31 February; it over-approximates real dates. */
  datatype Date = Date(year: Year, month: Month, day: Day)

  function Pow10(width: nat): (p: nat)
    ensures p >= 1
  {
    if width == 0 then 1 else 10 * Pow10(width - 1)
  }

  predicate IsDigit(c: char) {
    '0' <= c <= '9'
  }

  predicate AllDigits(s: string) {
    forall i | 0 <= i < |s| :: IsDigit(s[i])
  }

  function DigitChar(n: nat): (c: char)
    requires n < 10
    ensures IsDigit(c) && c as int - '0' as int == n
  {
    ('0' as int + n) as char
  }

  function DigitValue(c: char): (n: nat)
    requires IsDigit(c)
    ensures n < 10 && DigitChar(n) == c
  {
    c as int - '0' as int
  }

  /** `n` written in decimal with exactly `width` digits, zero-padded on the left. */
  function Pad(n: nat, width: nat): (s: string)
    requires n < Pow10(width)
    ensures |s| == width && AllDigits(s)
  {
    if width == 0 then ""
    else
      assert n / 10 < Pow10(width - 1);
      Pad(n / 10, width - 1) + [DigitChar(n % 10)]
  }

  /** The number a string of decimal digits denotes. */
  function Value(s: string): nat
    requires AllDigits(s)
  {
    if s == [] then 0 else 10 * Value(s[..|s| - 1]) + DigitValue(s[|s| - 1])
  }

  lemma {:induction false} ValueOfPad(n: nat, width: nat)
    requires n < Pow10(width)
    ensures Value(Pad(n, width)) == n
  {
    if width > 0 {
      var s := Pad(n, width);
      assert n / 10 < Pow10(width - 1);
      assert s[..|s| - 1] == Pad(n / 10, width - 1);
      ValueOfPad(n / 10, width - 1);
    }
  }

  lemma {:induction false} PadOfValue(s: string)
    requires AllDigits(s)
    ensures Value(s) < Pow10(|s|) && Pad(Value(s), |s|) == s
  {
    if s != [] {
      var init := s[..|s| - 1];
      PadOfValue(init);
      var v := Value(s);
      assert v / 10 == Value(init) && v % 10 == DigitValue(s[|s| - 1]);
      assert s == init + [s[|s| - 1]];
    }
  }

  /** `date.strftime("%d/%m/%Y")`: two-digit day, two-digit month, four-digit year. */
  function FormatDate(d: Date): (r: string)
    ensures |r| == 10 && r[2] == '/' && r[5] == '/'
    ensures AllDigits(r[..2]) && AllDigits(r[3..5]) && AllDigits(r[6..])
  {
    var r := Pad(d.day, 2) + "/" + Pad(d.month, 2) + "/" + Pad(d.year, 4);
    assert r[..2] == Pad(d.day, 2) && r[3..5] == Pad(d.month, 2) && r[6..] == Pad(d.year, 4);
    r
  }

  /** Reads a `DD/MM/YYYY` string back into a date; `None` for anything else. */
  function ParseDate(s: string): (r: Option<Date>)
  {
    if |s| == 10 && s[2] == '/' && s[5] == '/'
       && AllDigits(s[..2]) && AllDigits(s[3..5]) && AllDigits(s[6..]) then
      var day, month, year := Value(s[..2]), Value(s[3..5]), Value(s[6..]);
      if 1 <= day <= 31 && 1 <= month <= 12 && 1 <= year <= 9999 then
        Some(Date(year, month, day))
      else None
    else None
  }

  /** Every formatted date reads back as the date it came from. */
  lemma ParseFormatDate(d: Date)
    ensures ParseDate(FormatDate(d)) == Some(d)
  {
    var r := FormatDate(d);
    assert r[..2] == Pad(d.day, 2) && r[3..5] == Pad(d.month, 2) && r[6..] == Pad(d.year, 4);
    ValueOfPad(d.day, 2);
    ValueOfPad(d.month, 2);
    ValueOfPad(d.year, 4);
  }

  /** Every string that reads as a date is exactly that date's formatting. */
  lemma FormatParsedDate(s: string, d: Date)
    requires ParseDate(s) == Some(d)
    ensures FormatDate(d) == s
  {
    PadOfValue(s[..2]);
    PadOfValue(s[3..5]);
    PadOfValue(s[6..]);
    var r := FormatDate(d);
    assert r[..2] == s[..2] && r[3..5] == s[3..5] && r[6..] == s[6..];
    assert s == s[..2] + "/" + s[3..5] + "/" + s[6..];
  }

  /** Distinct dates are printed differently. */
  lemma FormatDateInjective(d1: Date, d2: Date)
    requires FormatDate(d1) == FormatDate(d2)
    ensures d1 == d2
  {
    ParseFormatDate(d1);
    ParseFormatDate(d2);
  }
}
