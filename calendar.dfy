/**
 * Calendar dates in the `YYYY-MM-DD` form the engine compares, and the
 * proleptic Gregorian day number (`datetime.date.toordinal`) whose
 * difference is the number of days between two dates.
 */
module Calendar {
  import opened Wrappers

  datatype Date = Date(year: int, month: int, day: int)

  predicate IsLeapYear(y: int) {
    y % 4 == 0 && (y % 100 != 0 || y % 400 == 0)
  }

  function DaysInMonth(y: int, m: int): int
    requires 1 <= m <= 12
  {
    if m == 2 then (if IsLeapYear(y) then 29 else 28)
    else if m == 4 || m == 6 || m == 9 || m == 11 then 30
    else 31
  }

  /** The dates Python's `datetime` can represent: years 1 to 9999. */
  predicate ValidDate(d: Date) {
    1 <= d.year <= 9999 && 1 <= d.month <= 12 && 1 <= d.day <= DaysInMonth(d.year, d.month)
  }

  function DaysBeforeYear(y: int): int
    requires y >= 1
  {
    var p := y - 1;
    365 * p + p / 4 - p / 100 + p / 400
  }

  function DaysBeforeMonth(y: int, m: int): int
    requires 1 <= m <= 12
  {
    [0, 31, 59, 90, 120, 151, 181, 212, 243, 273, 304, 334][m - 1] + (if m > 2 && IsLeapYear(y) then 1 else 0)
  }

  /** The day number of a date; 0001-01-01 is day 1. */
  function Ordinal(d: Date): int
    requires ValidDate(d)
  {
    DaysBeforeYear(d.year) + DaysBeforeMonth(d.year, d.month) + d.day
  }

  /** The calendar day after `d`. */
  function NextDay(d: Date): Date
    requires ValidDate(d)
  {
    if d.day < DaysInMonth(d.year, d.month) then Date(d.year, d.month, d.day + 1)
    else if d.month < 12 then Date(d.year, d.month + 1, 1)
    else Date(d.year + 1, 1, 1)
  }

  /** Quotient and remainder are the only ones with a remainder in range. */
  lemma DivisionUnique(n: int, k: int, q: int, r: int)
    requires k >= 1 && 0 <= r < k && n == k * q + r
    ensures n / k == q && n % k == r
  {
    var d := q - n / k;
    assert k * d == n % k - r;
    assert d >= 1 ==> k * d >= k;
    assert d <= -1 ==> k * d <= -k;
  }

  /** Going from `y - 1` to `y`, the quotient by `k` grows exactly when `k` divides `y`. */
  lemma QuotientStep(y: int, k: int)
    requires k >= 1
    ensures y / k - (y - 1) / k == (if y % k == 0 then 1 else 0)
  {
    var q, r := (y - 1) / k, (y - 1) % k;
    if r == k - 1 {
      DivisionUnique(y, k, q + 1, 0);
    } else {
      DivisionUnique(y, k, q, r + 1);
    }
  }

  lemma DaysInYear(y: int)
    requires y >= 1
    ensures DaysBeforeYear(y + 1) == DaysBeforeYear(y) + 365 + (if IsLeapYear(y) then 1 else 0)
  {
    QuotientStep(y, 4);
    QuotientStep(y, 100);
    QuotientStep(y, 400);
  }

  /** Consecutive calendar days have consecutive day numbers, so day numbers count days. */
  lemma OrdinalCountsDays(d: Date)
    requires ValidDate(d) && d != Date(9999, 12, 31)
    ensures ValidDate(NextDay(d)) && Ordinal(NextDay(d)) == Ordinal(d) + 1
  {
    if d.day == DaysInMonth(d.year, d.month) && d.month == 12 {
      DaysInYear(d.year);
    }
  }

  predicate IsDigit(c: char) {
    '0' <= c <= '9'
  }

  function DigitValue(c: char): int
    requires IsDigit(c)
  {
    c as int - '0' as int
  }

  function DigitChar(n: int): char
    requires 0 <= n <= 9
  {
    ('0' as int + n) as char
  }

  /** The value of the decimal numeral `s[lo..hi]`. */
  function Numeral(s: string, lo: int, hi: int): int
    requires 0 <= lo <= hi <= |s|
    requires forall i :: lo <= i < hi ==> IsDigit(s[i])
    decreases hi - lo
  {
    if lo == hi then 0 else 10 * Numeral(s, lo, hi - 1) + DigitValue(s[hi - 1])
  }

  /** `s` has the shape `DDDD-DD-DD` with ASCII digits. */
  predicate HasDateShape(s: string) {
    |s| == 10 && s[4] == '-' && s[7] == '-' &&
    forall i :: 0 <= i < 10 && i != 4 && i != 7 ==> IsDigit(s[i])
  }

  /**
   * Parsing with format `%Y-%m-%d`, kept strict: four-digit year,
   * two-digit month and day, and a day that exists in that month.
   */
  function ParseDate(s: string): (r: Option<Date>)
    ensures r.Some? ==> ValidDate(r.value)
    ensures r.Some? ==> HasDateShape(s)
  {
    if HasDateShape(s) then
      var d := Date(Numeral(s, 0, 4), Numeral(s, 5, 7), Numeral(s, 8, 10));
      if ValidDate(d) then Some(d) else None
    else None
  }

  /** The canonical `YYYY-MM-DD` text of a date. */
  function FormatDate(d: Date): (s: string)
    requires ValidDate(d)
    ensures HasDateShape(s)
  {
    [DigitChar(d.year / 1000), DigitChar(d.year / 100 % 10), DigitChar(d.year / 10 % 10), DigitChar(d.year % 10), '-',
     DigitChar(d.month / 10), DigitChar(d.month % 10), '-',
     DigitChar(d.day / 10), DigitChar(d.day % 10)]
  }

  lemma DigitRoundTrip(n: int)
    requires 0 <= n <= 9
    ensures IsDigit(DigitChar(n)) && DigitValue(DigitChar(n)) == n
  {
  }

  lemma CharRoundTrip(c: char)
    requires IsDigit(c)
    ensures DigitChar(DigitValue(c)) == c
  {
  }

  lemma NumeralOfTwo(s: string, lo: int)
    requires 0 <= lo && lo + 2 <= |s| && IsDigit(s[lo]) && IsDigit(s[lo + 1])
    ensures Numeral(s, lo, lo + 2) == 10 * DigitValue(s[lo]) + DigitValue(s[lo + 1])
  {
    assert Numeral(s, lo, lo + 1) == DigitValue(s[lo]);
  }

  lemma NumeralOfFour(s: string, lo: int)
    requires 0 <= lo && lo + 4 <= |s| && forall i :: lo <= i < lo + 4 ==> IsDigit(s[i])
    ensures Numeral(s, lo, lo + 4) ==
      1000 * DigitValue(s[lo]) + 100 * DigitValue(s[lo + 1]) + 10 * DigitValue(s[lo + 2]) + DigitValue(s[lo + 3])
  {
    NumeralOfTwo(s, lo);
    assert Numeral(s, lo, lo + 3) == 10 * Numeral(s, lo, lo + 2) + DigitValue(s[lo + 2]);
  }

  /** The four decimal digits of a year, most significant first. */
  lemma FourDigits(y: int)
    requires 0 <= y <= 9999
    ensures 0 <= y / 1000 <= 9 && 0 <= y / 100 % 10 <= 9 && 0 <= y / 10 % 10 <= 9 && 0 <= y % 10 <= 9
    ensures y == 1000 * (y / 1000) + 100 * (y / 100 % 10) + 10 * (y / 10 % 10) + y % 10
  {
    var a, r3 := y / 1000, y % 1000;
    var b, r2 := r3 / 100, r3 % 100;
    var c, d := r2 / 10, r2 % 10;
    assert y == 1000 * a + 100 * b + 10 * c + d;
    DigitsOfFour(a, b, c, d);
  }

  lemma DigitsOfFour(a: int, b: int, c: int, d: int)
    requires 0 <= a <= 9 && 0 <= b <= 9 && 0 <= c <= 9 && 0 <= d <= 9
    ensures var y := 1000 * a + 100 * b + 10 * c + d;
      y / 1000 == a && y / 100 % 10 == b && y / 10 % 10 == c && y % 10 == d
  {
    var y := 1000 * a + 100 * b + 10 * c + d;
    DivisionUnique(y, 1000, a, 100 * b + 10 * c + d);
    DivisionUnique(y, 100, 10 * a + b, 10 * c + d);
    DivisionUnique(10 * a + b, 10, a, b);
    DivisionUnique(y, 10, 100 * a + 10 * b + c, d);
    DivisionUnique(100 * a + 10 * b + c, 10, 10 * a + b, c);
  }

  /** Every valid date is read back from its canonical text. */
  lemma ParseFormatDate(d: Date)
    requires ValidDate(d)
    ensures ParseDate(FormatDate(d)) == Some(d)
  {
    var s := FormatDate(d);
    FourDigits(d.year);
    DigitRoundTrip(d.year / 1000);
    DigitRoundTrip(d.year / 100 % 10);
    DigitRoundTrip(d.year / 10 % 10);
    DigitRoundTrip(d.year % 10);
    DigitRoundTrip(d.month / 10);
    DigitRoundTrip(d.month % 10);
    DigitRoundTrip(d.day / 10);
    DigitRoundTrip(d.day % 10);
    NumeralOfFour(s, 0);
    NumeralOfTwo(s, 5);
    NumeralOfTwo(s, 8);
  }

  /** A text that parses is the canonical text of the date it denotes. */
  lemma FormatParseDate(s: string)
    requires ParseDate(s).Some?
    ensures FormatDate(ParseDate(s).value) == s
  {
    var d := ParseDate(s).value;
    NumeralOfFour(s, 0);
    NumeralOfTwo(s, 5);
    NumeralOfTwo(s, 8);
    DigitsOfFour(DigitValue(s[0]), DigitValue(s[1]), DigitValue(s[2]), DigitValue(s[3]));
    DivisionUnique(d.month, 10, DigitValue(s[5]), DigitValue(s[6]));
    DivisionUnique(d.day, 10, DigitValue(s[8]), DigitValue(s[9]));
    CharRoundTrip(s[0]);
    CharRoundTrip(s[1]);
    CharRoundTrip(s[2]);
    CharRoundTrip(s[3]);
    CharRoundTrip(s[5]);
    CharRoundTrip(s[6]);
    CharRoundTrip(s[8]);
    CharRoundTrip(s[9]);
    assert FormatDate(d) == [s[0], s[1], s[2], s[3], '-', s[5], s[6], '-', s[8], s[9]];
    assert s == [s[0], s[1], s[2], s[3], s[4], s[5], s[6], s[7], s[8], s[9]];
  }
}
