/** Calendar dates as `datetime.strptime(target_date, "%Y-%m-%d")` reads them, and the day count
    `(target - datetime.now()).days`. The format is close to the `full-date` of section 5.6 of
    RFC 3339, except that the month and the day may also be written with one digit, and the day
    with a leading space. */
module Dates {
  import opened Wrappers

  datatype Date = Date(year: int, month: int, day: int)

  /** Microseconds elapsed since midnight: fewer than a day's 86 400 000 000. */
  type MicrosOfDay = m: nat | m < 86_400_000_000

  /** The wall clock: today's date and the microseconds elapsed since midnight. */
  datatype Clock = Clock(today: Date, microsOfDay: MicrosOfDay)

  predicate IsLeap(y: int) {
    y % 4 == 0 && (y % 100 != 0 || y % 400 == 0)
  }

  function DaysInMonth(y: int, m: int): (n: int)
    requires 1 <= m <= 12
    ensures 28 <= n <= 31
    ensures n == 29 <==> m == 2 && IsLeap(y)
  {
    if m == 2 then (if IsLeap(y) then 29 else 28)
    else if m == 4 || m == 6 || m == 9 || m == 11 then 30
    else 31
  }

  /** A date `datetime.date` accepts: years 1 to 9999. */
  predicate ValidDate(d: Date) {
    1 <= d.year <= 9999 && 1 <= d.month <= 12 && 1 <= d.day <= DaysInMonth(d.year, d.month)
  }

  predicate IsDigit(c: char) {
    '0' <= c <= '9'
  }

  function DigitValue(c: char): (n: nat)
    requires IsDigit(c)
    ensures n <= 9
  {
    c as int - '0' as int
  }

  /** `%Y`: exactly four digits. */
  function YearField(s: string): (r: Option<int>)
    ensures r.Some? ==> 0 <= r.value <= 9999
  {
    if |s| >= 4 && IsDigit(s[0]) && IsDigit(s[1]) && IsDigit(s[2]) && IsDigit(s[3]) then
      Some(1000 * DigitValue(s[0]) + 100 * DigitValue(s[1]) + 10 * DigitValue(s[2]) + DigitValue(s[3]))
    else None
  }

  /** `%m-`: the alternatives `1[0-2]|0[1-9]|[1-9]`, then the separator; gives the month and the
      number of digits read. */
  function MonthField(s: string): (r: Option<(int, nat)>)
    ensures r.Some? ==> 1 <= r.value.0 <= 12 && 1 <= r.value.1 <= 2 && |s| > r.value.1 && s[r.value.1] == '-'
  {
    if |s| >= 3 && s[0] == '1' && '0' <= s[1] <= '2' && s[2] == '-' then Some((10 + DigitValue(s[1]), 2))
    else if |s| >= 3 && s[0] == '0' && '1' <= s[1] <= '9' && s[2] == '-' then Some((DigitValue(s[1]), 2))
    else if |s| >= 2 && '1' <= s[0] <= '9' && s[1] == '-' then Some((DigitValue(s[0]), 1))
    else None
  }

  /** `%d`: the first of the alternatives `3[01]|[12]\d|0[1-9]|[1-9]| [1-9]` that matches at the
      start of `s`; the day and the number of characters read. */
  function DayMatch(s: string): (r: Option<(int, nat)>)
    ensures r.Some? ==> 1 <= r.value.0 <= 31 && 1 <= r.value.1 <= 2 && r.value.1 <= |s|
  {
    if |s| >= 2 && s[0] == '3' && (s[1] == '0' || s[1] == '1') then Some((30 + DigitValue(s[1]), 2))
    else if |s| >= 2 && (s[0] == '1' || s[0] == '2') && IsDigit(s[1]) then Some((10 * DigitValue(s[0]) + DigitValue(s[1]), 2))
    else if |s| >= 2 && s[0] == '0' && '1' <= s[1] <= '9' then Some((DigitValue(s[1]), 2))
    else if |s| >= 1 && '1' <= s[0] <= '9' then Some((DigitValue(s[0]), 1))
    else if |s| >= 2 && s[0] == ' ' && '1' <= s[1] <= '9' then Some((DigitValue(s[1]), 2))
    else None
  }

  /** `datetime.strptime(s, "%Y-%m-%d")`: the pattern must match at the start, leave nothing
      unconverted, and name a real date; any failure is `None`. */
  function ParseDate(s: string): (r: Option<Date>)
    ensures r.Some? ==> ValidDate(r.value)
  {
    match YearField(s)
    case None => None
    case Some(y) =>
      if |s| < 5 || s[4] != '-' then None
      else
        match MonthField(s[5..])
        case None => None
        case Some((m, n)) =>
          var rest := s[6 + n..];
          match DayMatch(rest)
          case None => None
          case Some((d, k)) =>
            if k != |rest| then None
            else if ValidDate(Date(y, m, d)) then Some(Date(y, m, d))
            else None
  }

  /** Two digits of `n`, zero-padded. */
  function TwoDigits(n: int): string
    requires 0 <= n <= 99
  {
    [('0' as int + n / 10) as char, ('0' as int + n % 10) as char]
  }

  /** `date.isoformat()`: `YYYY-MM-DD`, zero-padded. */
  function FormatDate(d: Date): string
    requires ValidDate(d)
  {
    TwoDigits(d.year / 100) + TwoDigits(d.year % 100) + "-" + TwoDigits(d.month) + "-" + TwoDigits(d.day)
  }

  function DaysBeforeYear(y: int): int
    requires y >= 1
  {
    var p := y - 1;
    365 * p + p / 4 - p / 100 + p / 400
  }

  /** Days in the year before the first of month `m`, from the cumulative month table. */
  function DaysBeforeMonth(y: int, m: int): int
    requires 1 <= m <= 12
  {
    [0, 0, 31, 59, 90, 120, 151, 181, 212, 243, 273, 304, 334][m] + (if m > 2 && IsLeap(y) then 1 else 0)
  }

  /** `date.toordinal()`: 1 for 0001-01-01. */
  function Ordinal(d: Date): int
    requires ValidDate(d)
  {
    DaysBeforeYear(d.year) + DaysBeforeMonth(d.year, d.month) + d.day
  }

  /** The calendar day after `d`. */
  function NextDay(d: Date): (r: Date)
    requires ValidDate(d) && d.year < 9999
    ensures ValidDate(r)
  {
    if d.day < DaysInMonth(d.year, d.month) then Date(d.year, d.month, d.day + 1)
    else if d.month < 12 then Date(d.year, d.month + 1, 1)
    else Date(d.year + 1, 1, 1)
  }

  /** `(target - now).days` for a target at midnight: the difference of the ordinals, one less
      once the clock is past midnight, since `timedelta.days` rounds down. */
  function DaysRemaining(target: string, now: Clock): (r: Option<int>)
    requires ValidDate(now.today)
  {
    match ParseDate(target)
    case None => None
    case Some(t) => Some(Ordinal(t) - Ordinal(now.today) - (if now.microsOfDay > 0 then 1 else 0))
  }

  /** The year is one longer in a leap year. */
  lemma DaysInYear(y: int)
    requires y >= 1
    ensures DaysBeforeYear(y + 1) - DaysBeforeYear(y) == if IsLeap(y) then 366 else 365
  {
    var p := y - 1;
    assert DaysBeforeYear(y + 1) - DaysBeforeYear(y) == 365 + (y / 4 - p / 4) - (y / 100 - p / 100) + (y / 400 - p / 400);
    DivStep4(y);
    DivStep100(y);
    DivStep400(y);
    LeapMultiples(y);
  }

  /** `y // 4`, `y // 100` and `y // 400` step up by one exactly at the multiples. */
  lemma DivStep4(y: int)
    requires y >= 1
    ensures y / 4 - (y - 1) / 4 == if y % 4 == 0 then 1 else 0
  {
  }

  lemma DivStep100(y: int)
    requires y >= 1
    ensures y / 100 - (y - 1) / 100 == if y % 100 == 0 then 1 else 0
  {
  }

  lemma DivStep400(y: int)
    requires y >= 1
    ensures y / 400 - (y - 1) / 400 == if y % 400 == 0 then 1 else 0
  {
  }

  lemma LeapMultiples(y: int)
    ensures y % 400 == 0 ==> y % 100 == 0
    ensures y % 100 == 0 ==> y % 4 == 0
  {
  }

  /** The month table agrees with the lengths of the months. */
  lemma DaysBeforeNextMonth(y: int, m: int)
    requires 1 <= m < 12
    ensures DaysBeforeMonth(y, m + 1) == DaysBeforeMonth(y, m) + DaysInMonth(y, m)
  {
  }

  /** Consecutive days have consecutive ordinals. */
  lemma OrdinalNextDay(d: Date)
    requires ValidDate(d) && d.year < 9999
    ensures Ordinal(NextDay(d)) == Ordinal(d) + 1
  {
    if d.day == DaysInMonth(d.year, d.month) {
      if d.month == 12 {
        DaysInYear(d.year);
      } else {
        DaysBeforeNextMonth(d.year, d.month);
      }
    }
  }

  /** Parsing the `YYYY-MM-DD` text of any date gives the date back. */
  lemma ParseFormat(d: Date)
    requires ValidDate(d)
    ensures ParseDate(FormatDate(d)) == Some(d)
  {
    var s := FormatDate(d);
    assert s[..4] == TwoDigits(d.year / 100) + TwoDigits(d.year % 100);
    assert YearField(s) == Some(d.year);
    assert s[5..] == TwoDigits(d.month) + "-" + TwoDigits(d.day);
    assert MonthField(s[5..]) == Some((d.month, 2));
    assert s[8..] == TwoDigits(d.day);
  }

  /** Text that is not a date reads as no date. */
  lemma NotADate()
    ensures ParseDate("not-a-date") == None
  {
  }

  /** The pattern accepts a one-digit month and day. */
  lemma ShortFields()
    ensures ParseDate("2025-1-5") == Some(Date(2025, 1, 5))
  {
    assert "2025-1-5"[5..] == "1-5";
    assert "2025-1-5"[7..] == "5";
  }

  /** A day the month does not have, or data after the day, is rejected. */
  lemma RejectedDates()
    ensures ParseDate("2023-02-29") == None
    ensures ParseDate("2024-01-155") == None
  {
    assert "2023-02-29"[5..] == "02-29";
    assert "2023-02-29"[8..] == "29";
    assert "2024-01-155"[5..] == "01-155";
    assert "2024-01-155"[8..] == "155";
  }
}
