/**
 * Calendar dates as Python's `datetime.date` holds them, their `YYYY-MM-DD`
 * rendering (the full-date form of section 5.6 of RFC 3339, as `str(date)` and
 * `strftime("%Y-%m-%d")` produce it) and `datetime.strptime(s, "%Y-%m-%d")`.
 */
module Dates {
  import opened Wrappers
  import opened Text

  datatype Date = Date(year: int, month: int, day: int)

  predicate IsLeap(y: int) {
    (y % 4 == 0 && y % 100 != 0) || y % 400 == 0
  }

  function DaysInMonth(y: int, m: int): (n: int)
    requires 1 <= m <= 12
    ensures 28 <= n <= 31
    ensures n == 29 <==> m == 2 && IsLeap(y)
  {
    if m == 2 then (if IsLeap(y) then 29 else 28)
    else if m == 4 || m == 6 || m == 9 || m == 11 then 30
    else 31
  }

  /** A date `datetime.date` accepts: `MINYEAR` is 1 and `MAXYEAR` is 9999. */
  predicate Valid(d: Date) {
    && 1 <= d.year <= 9999
    && 1 <= d.month <= 12
    && 1 <= d.day <= DaysInMonth(d.year, d.month)
  }

  /** Chronological order, as Python and PostgreSQL compare dates. */
  predicate Before(a: Date, b: Date) {
    a.year < b.year
    || (a.year == b.year && a.month < b.month)
    || (a.year == b.year && a.month == b.month && a.day < b.day)
  }

  predicate OnOrBefore(a: Date, b: Date) {
    a == b || Before(a, b)
  }

  function YearLength(y: int): int {
    if IsLeap(y) then 366 else 365
  }

  function DaysBeforeYear(y: int): nat
    decreases y
  {
    if y <= 1 then 0 else DaysBeforeYear(y - 1) + YearLength(y - 1)
  }

  function DaysBeforeMonth(y: int, m: int): nat
    requires 1 <= m <= 12
  {
    if m == 1 then 0 else DaysBeforeMonth(y, m - 1) + DaysInMonth(y, m - 1)
  }

  /** Day number counted from 0001-01-01 (which is day 1), as `date.toordinal()`. */
  function Ordinal(d: Date): int
    requires Valid(d)
  {
    DaysBeforeYear(d.year) + DaysBeforeMonth(d.year, d.month) + d.day
  }

  /** The day before `d`, or None before 0001-01-01 (Python raises OverflowError). */
  function PrevDay(d: Date): (r: Option<Date>)
    requires Valid(d)
    ensures r.Some? ==> Valid(r.value) && Before(r.value, d) && Ordinal(r.value) == Ordinal(d) - 1
    ensures r.None? <==> d == Date(1, 1, 1)
  {
    if d.day > 1 then Some(Date(d.year, d.month, d.day - 1))
    else if d.month > 1 then Some(Date(d.year, d.month - 1, DaysInMonth(d.year, d.month - 1)))
    else if d.year > 1 then
      DaysBeforeDecember(d.year - 1);
      Some(Date(d.year - 1, 12, 31))
    else None
  }

  lemma DaysBeforeDecember(y: int)
    ensures DaysBeforeMonth(y, 12) + 31 == YearLength(y)
  {
    assert DaysBeforeMonth(y, 2) == 31;
    assert DaysBeforeMonth(y, 3) == 31 + DaysInMonth(y, 2);
    assert DaysBeforeMonth(y, 4) == 62 + DaysInMonth(y, 2);
    assert DaysBeforeMonth(y, 5) == 92 + DaysInMonth(y, 2);
    assert DaysBeforeMonth(y, 6) == 123 + DaysInMonth(y, 2);
    assert DaysBeforeMonth(y, 7) == 153 + DaysInMonth(y, 2);
    assert DaysBeforeMonth(y, 8) == 184 + DaysInMonth(y, 2);
    assert DaysBeforeMonth(y, 9) == 215 + DaysInMonth(y, 2);
    assert DaysBeforeMonth(y, 10) == 245 + DaysInMonth(y, 2);
    assert DaysBeforeMonth(y, 11) == 276 + DaysInMonth(y, 2);
    assert DaysBeforeMonth(y, 12) == 306 + DaysInMonth(y, 2);
  }

  /** `d - timedelta(days=n)`, or None when that falls before 0001-01-01. */
  function SubtractDays(d: Date, n: nat): (r: Option<Date>)
    requires Valid(d)
    ensures r.Some? ==> Valid(r.value) && Ordinal(r.value) == Ordinal(d) - n
    ensures r.Some? && n > 0 ==> Before(r.value, d)
    decreases n
  {
    if n == 0 then Some(d)
    else
      match PrevDay(d)
      case None => None
      case Some(p) => SubtractDays(p, n - 1)
  }

  function Pad2(n: nat): (s: string)
    requires n < 100
    ensures |s| == 2 && AllDigits(s)
  {
    [DigitChar(n / 10), DigitChar(n % 10)]
  }

  function Pad4(n: nat): (s: string)
    requires n < 10000
    ensures |s| == 4 && AllDigits(s)
  {
    var tens := n / 10;
    var hundreds := tens / 10;
    [DigitChar(hundreds / 10), DigitChar(hundreds % 10), DigitChar(tens % 10), DigitChar(n % 10)]
  }

  /** `str(d)`: zero-padded `YYYY-MM-DD`. */
  function Format(d: Date): (s: string)
    requires Valid(d)
    ensures |s| == 10 && s[4] == '-' && s[7] == '-'
    ensures AllDigits(s[..4]) && AllDigits(s[5..7]) && AllDigits(s[8..])
  {
    Pad4(d.year) + "-" + Pad2(d.month) + "-" + Pad2(d.day)
  }

  /** A month as `%m` matches it: `1[0-2]`, `0[1-9]` or `[1-9]`. */
  predicate IsMonthToken(t: string) {
    || (|t| == 2 && t[0] == '1' && '0' <= t[1] <= '2')
    || (|t| == 2 && t[0] == '0' && '1' <= t[1] <= '9')
    || (|t| == 1 && '1' <= t[0] <= '9')
  }

  /** A day as `%d` matches it: `3[01]`, `[12][0-9]`, `0[1-9]`, `[1-9]` or a space then `[1-9]`. */
  predicate IsDayToken(t: string) {
    || (|t| == 2 && t[0] == '3' && (t[1] == '0' || t[1] == '1'))
    || (|t| == 2 && (t[0] == '1' || t[0] == '2') && IsDigit(t[1]))
    || (|t| == 2 && t[0] == '0' && '1' <= t[1] <= '9')
    || (|t| == 1 && '1' <= t[0] <= '9')
    || (|t| == 2 && t[0] == ' ' && '1' <= t[1] <= '9')
  }

  /** Numeric value of a token of one or two digits, a leading space ignored as `int()` does. */
  function TokenValue(t: string): nat
    requires 1 <= |t| <= 2 && IsDigit(t[|t| - 1])
    requires |t| == 2 ==> IsDigit(t[0]) || t[0] == ' '
  {
    if |t| == 2 && IsDigit(t[0]) then DigitValue(t[0]) * 10 + DigitValue(t[1])
    else DigitValue(t[|t| - 1])
  }

  /**
   * `datetime.strptime(s, "%Y-%m-%d").date()`: exactly four year digits, a month
   * and a day token, nothing left over, and a real calendar date; None stands for
   * the ValueError raised otherwise.
   */
  function Parse(s: string): (r: Option<Date>)
    ensures r.Some? ==> Valid(r.value)
  {
    if |s| < 7 || !AllDigits(s[..4]) || s[4] != '-' then None
    else
      var monthLength :=
        if |s| > 7 && IsMonthToken(s[5..7]) && s[7] == '-' then 2
        else if IsMonthToken(s[5..6]) && s[6] == '-' then 1
        else 0;
      if monthLength == 0 then None
      else
        var dayToken := s[6 + monthLength..];
        if !IsDayToken(dayToken) then None
        else
          var d := Date(DecimalValue(s[..4]), TokenValue(s[5..5 + monthLength]), TokenValue(dayToken));
          if Valid(d) then Some(d) else None
  }

  lemma Pad2Month(n: nat)
    requires 1 <= n <= 12
    ensures IsMonthToken(Pad2(n)) && TokenValue(Pad2(n)) == n
  {
  }

  lemma Pad2Day(n: nat)
    requires 1 <= n <= 31
    ensures IsDayToken(Pad2(n)) && TokenValue(Pad2(n)) == n
  {
  }

  lemma Pad4Value(n: nat)
    requires n < 10000
    ensures DecimalValue(Pad4(n)) == n
  {
    var s := Pad4(n);
    var tens := n / 10;
    var hundreds := tens / 10;
    assert s[..1][..0] == [] && s[..2][..1] == s[..1] && s[..3][..2] == s[..2] && s[..4] == s;
    assert DecimalValue(s[..1]) == hundreds / 10;
    assert DecimalValue(s[..2]) == hundreds;
    assert DecimalValue(s[..3]) == tens;
  }

  /** Reading back what `str(d)` wrote gives `d` again. */
  lemma ParseFormat(d: Date)
    requires Valid(d)
    ensures Parse(Format(d)) == Some(d)
  {
    var s := Format(d);
    assert s[..4] == Pad4(d.year);
    assert s[5..7] == Pad2(d.month);
    assert s[8..] == Pad2(d.day);
    Pad4Value(d.year);
    Pad2Month(d.month);
    Pad2Day(d.day);
  }
}
