/** Gregorian calendar dates in the `YYYY-MM-DD` form the equipment validator accepts.
    In PHP the check is `date('Y-m-d', strtotime($d)) === $d`; here it is the
    calendar condition that check amounts to: month 1-12 and a day that exists in
    that month of that year. */
module Calendar {
  import opened Text

  /** Gregorian leap years: divisible by 4, except centuries not divisible by 400. */
  predicate IsLeapYear(y: int) {
    (y % 4 == 0 && y % 100 != 0) || y % 400 == 0
  }

  function DaysInMonth(y: int, m: int): (n: int)
    requires 1 <= m <= 12
    ensures 28 <= n <= 31
    ensures m == 2 ==> (n == 29 <==> IsLeapYear(y))
  {
    if m == 2 then (if IsLeapYear(y) then 29 else 28)
    else if m == 4 || m == 6 || m == 9 || m == 11 then 30
    else 31
  }

  predicate IsRealDate(y: int, m: int, d: int) {
    1 <= m <= 12 && 1 <= d <= DaysInMonth(y, m)
  }

  /** `^\d{4}-\d{2}-\d{2}$` on a trimmed string (so `$` cannot stop before a newline). */
  predicate MatchesDateShape(s: string) {
    |s| == 10 && s[4] == '-' && s[7] == '-'
    && IsDigit(s[0]) && IsDigit(s[1]) && IsDigit(s[2]) && IsDigit(s[3])
    && IsDigit(s[5]) && IsDigit(s[6]) && IsDigit(s[8]) && IsDigit(s[9])
  }

  function Year(s: string): nat requires MatchesDateShape(s) {
    1000 * DigitValue(s[0]) + 100 * DigitValue(s[1]) + 10 * DigitValue(s[2]) + DigitValue(s[3])
  }

  function Month(s: string): nat requires MatchesDateShape(s) {
    10 * DigitValue(s[5]) + DigitValue(s[6])
  }

  function Day(s: string): nat requires MatchesDateShape(s) {
    10 * DigitValue(s[8]) + DigitValue(s[9])
  }

  /** The purchase-date rule: the right shape and a day that exists. */
  predicate IsValidDate(s: string) {
    MatchesDateShape(s) && IsRealDate(Year(s), Month(s), Day(s))
  }

  /** The four decimal digits of a year below 10000, leading zeros kept. */
  function Pad4(n: nat): (s: string)
    requires n < 10000
    ensures |s| == 4 && IsDigit(s[0]) && IsDigit(s[1]) && IsDigit(s[2]) && IsDigit(s[3])
  {
    [DigitChar(n / 1000), DigitChar(n / 100 % 10), DigitChar(n / 10 % 10), DigitChar(n % 10)]
  }

  /** The two decimal digits of a month or day below 100, leading zero kept. */
  function Pad2(n: nat): (s: string)
    requires n < 100
    ensures |s| == 2 && IsDigit(s[0]) && IsDigit(s[1])
  {
    [DigitChar(n / 10), DigitChar(n % 10)]
  }

  /** PHP `date('Y-m-d')` for a date of the years 0000-9999. */
  function FormatDate(y: nat, m: nat, d: nat): (s: string)
    requires y < 10000 && m < 100 && d < 100
    ensures MatchesDateShape(s)
  {
    Pad4(y) + "-" + Pad2(m) + "-" + Pad2(d)
  }

  lemma Digits4(n: nat)
    requires n < 10000
    ensures 1000 * (n / 1000) + 100 * (n / 100 % 10) + 10 * (n / 10 % 10) + n % 10 == n
  {
    assert n == 10 * (n / 10) + n % 10;
    assert n / 10 == 10 * (n / 100) + n / 10 % 10;
    assert n / 100 == 10 * (n / 1000) + n / 100 % 10;
  }

  lemma Split4(a: nat, b: nat, c: nat, d: nat)
    requires a < 10 && b < 10 && c < 10 && d < 10
    ensures var n := 1000 * a + 100 * b + 10 * c + d;
      n / 1000 == a && n / 100 % 10 == b && n / 10 % 10 == c && n % 10 == d
  {
    var n := 1000 * a + 100 * b + 10 * c + d;
    assert n == 10 * (100 * a + 10 * b + c) + d;
    assert n / 10 == 100 * a + 10 * b + c;
    assert n / 10 == 10 * (10 * a + b) + c;
    assert n / 100 == (n / 10) / 10;
    assert n / 100 == 10 * a + b;
    assert n / 1000 == (n / 100) / 10;
  }

  /** Reading a date back from its formatted text gives the same year, month and day. */
  lemma FormatThenRead(y: nat, m: nat, d: nat)
    requires y < 10000 && m < 100 && d < 100
    ensures var s := FormatDate(y, m, d); Year(s) == y && Month(s) == m && Day(s) == d
  {
    var s := FormatDate(y, m, d);
    assert s[..4] == Pad4(y) && s[5..7] == Pad2(m) && s[8..] == Pad2(d);
    Digits4(y);
  }

  /** Every string of the right shape is the formatting of what it reads as: the
      "round-trips through date formatting" half of the PHP check. */
  lemma ReadThenFormat(s: string)
    requires MatchesDateShape(s)
    ensures Year(s) < 10000 && Month(s) < 100 && Day(s) < 100
    ensures FormatDate(Year(s), Month(s), Day(s)) == s
  {
    Split4(DigitValue(s[0]), DigitValue(s[1]), DigitValue(s[2]), DigitValue(s[3]));
    var f := FormatDate(Year(s), Month(s), Day(s));
    assert f[..4] == Pad4(Year(s)) && f[5..7] == Pad2(Month(s)) && f[8..] == Pad2(Day(s));
    forall i | 0 <= i < 10 ensures f[i] == s[i] {
    }
  }

  /** A formatted date passes the rule exactly when it is a real calendar day. */
  lemma FormattedDateValid(y: nat, m: nat, d: nat)
    requires y < 10000 && m < 100 && d < 100
    ensures IsValidDate(FormatDate(y, m, d)) <==> IsRealDate(y, m, d)
  {
    FormatThenRead(y, m, d);
  }

  /** February 30th never exists; February 29th exists only in leap years. */
  lemma February(y: nat)
    requires y < 10000
    ensures !IsValidDate(FormatDate(y, 2, 30))
    ensures IsValidDate(FormatDate(y, 2, 29)) <==> IsLeapYear(y)
  {
    FormattedDateValid(y, 2, 30);
    FormattedDateValid(y, 2, 29);
  }
}
