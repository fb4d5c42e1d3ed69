/**
 * Proleptic Gregorian dates and wall-clock times as Python's `datetime` module and pandas
 * handle them: days per month, the next and previous calendar day, the ordinal day number
 * (`date.toordinal()`), the weekday (`date.weekday()`, Monday = 0), the shift from UTC to
 * Tokyo time, and the CME session rule that assigns a Tokyo time to a trading date.
 */
module Calendar {

  predicate IsLeapYear(y: int) {
    y % 4 == 0 && (y % 100 != 0 || y % 400 == 0)
  }

  function DaysInMonth(y: int, m: int): (n: int)
    requires 1 <= m <= 12
    ensures 28 <= n <= 31
    ensures m == 2 ==> (n == 29 <==> IsLeapYear(y))
  {
    if m == 2 then (if IsLeapYear(y) then 29 else 28)
    else if m == 4 || m == 6 || m == 9 || m == 11 then 30
    else 31
  }

  datatype Date = Date(year: int, month: int, day: int)

  /** A real calendar day: a month of the year and a day of that month. */
  predicate IsDate(d: Date) {
    1 <= d.month <= 12 && 1 <= d.day <= DaysInMonth(d.year, d.month)
  }

  /** The years `datetime.date` accepts (`MINYEAR` to `MAXYEAR`). */
  predicate InPythonRange(d: Date) {
    1 <= d.year <= 9999
  }

  function NextDay(d: Date): (r: Date)
    requires IsDate(d)
    ensures IsDate(r)
  {
    if d.day < DaysInMonth(d.year, d.month) then Date(d.year, d.month, d.day + 1)
    else if d.month < 12 then Date(d.year, d.month + 1, 1)
    else Date(d.year + 1, 1, 1)
  }

  /** `d - timedelta(days=1)`: the calendar day before `d`. */
  function PrevDay(d: Date): (r: Date)
    requires IsDate(d)
    ensures IsDate(r)
  {
    if d.day > 1 then Date(d.year, d.month, d.day - 1)
    else if d.month > 1 then Date(d.year, d.month - 1, DaysInMonth(d.year, d.month - 1))
    else Date(d.year - 1, 12, 31)
  }

  /** Going back a day and forward a day, in either order, returns to the same day. */
  lemma NextPrevInverse(d: Date)
    requires IsDate(d)
    ensures NextDay(PrevDay(d)) == d
    ensures PrevDay(NextDay(d)) == d
  {
  }

  /** Days of the years before `y` (Python's `_days_before_year`). */
  function DaysBeforeYear(y: int): int {
    var p := y - 1;
    p * 365 + p / 4 - p / 100 + p / 400
  }

  /** Days of the months of year `y` before month `m`. */
  function DaysBeforeMonth(y: int, m: int): int
    requires 1 <= m <= 12
  {
    if m == 1 then 0 else DaysBeforeMonth(y, m - 1) + DaysInMonth(y, m - 1)
  }

  /** `date.toordinal()`: 0001-01-01 is day 1. */
  function DayNumber(d: Date): int
    requires IsDate(d)
  {
    DaysBeforeYear(d.year) + DaysBeforeMonth(d.year, d.month) + d.day
  }

  lemma DaysBeforeDecember(y: int)
    ensures DaysBeforeMonth(y, 12) == 334 + (if IsLeapYear(y) then 1 else 0)
  {
    var leap := if IsLeapYear(y) then 1 else 0;
    assert DaysBeforeMonth(y, 2) == 31;
    assert DaysBeforeMonth(y, 3) == 59 + leap;
    assert DaysBeforeMonth(y, 4) == 90 + leap;
    assert DaysBeforeMonth(y, 5) == 120 + leap;
    assert DaysBeforeMonth(y, 6) == 151 + leap;
    assert DaysBeforeMonth(y, 7) == 181 + leap;
    assert DaysBeforeMonth(y, 8) == 212 + leap;
    assert DaysBeforeMonth(y, 9) == 243 + leap;
    assert DaysBeforeMonth(y, 10) == 273 + leap;
    assert DaysBeforeMonth(y, 11) == 304 + leap;
  }

  /** A year has 366 days exactly when it is a leap year. */
  lemma YearLength(y: int)
    ensures DaysBeforeYear(y + 1) - DaysBeforeYear(y) == (if IsLeapYear(y) then 366 else 365)
  {
    var p := y - 1;
    assert y * 365 == p * 365 + 365;
    LeapStep(y, 4);
    LeapStep(y, 100);
    LeapStep(y, 400);
  }

  /** Going from year `y - 1` to year `y` adds one multiple of `n` exactly when `n` divides `y`. */
  lemma LeapStep(y: int, n: int)
    requires n > 0
    ensures y / n - (y - 1) / n == if y % n == 0 then 1 else 0
  {
    var q, r := (y - 1) / n, (y - 1) % n;
    if r == n - 1 {
      DivUnique(y, n, q + 1, 0);
    } else {
      DivUnique(y, n, q, r + 1);
    }
  }

  /** Euclidean division has one quotient and one remainder. */
  lemma DivUnique(y: int, n: int, q: int, r: int)
    requires n > 0 && 0 <= r < n && y == n * q + r
    ensures y / n == q && y % n == r
  {
    var q', r' := y / n, y % n;
    assert y == n * q' + r' && 0 <= r' < n;
    var d := q - q';
    ProductDifference(n, q, q');
    assert n * d == r' - r;
    ProductAtLeast(n, d);
    ProductAtLeast(n, -d);
  }

  lemma ProductDifference(n: int, a: int, b: int)
    ensures n * a - n * b == n * (a - b)
  {
  }

  /** A positive multiple of `n` is at least `n`. */
  lemma ProductAtLeast(n: int, d: int)
    requires n > 0
    ensures d >= 1 ==> n * d >= n
    ensures n * -d == -(n * d)
  {
  }

  /** The next day is numbered one more: day numbers count the calendar without gaps. */
  lemma NextDayNumber(d: Date)
    requires IsDate(d)
    ensures DayNumber(NextDay(d)) == DayNumber(d) + 1
  {
    if d.day == DaysInMonth(d.year, d.month) && d.month == 12 {
      YearLength(d.year);
      DaysBeforeDecember(d.year);
    }
  }

  lemma PrevDayNumber(d: Date)
    requires IsDate(d)
    ensures DayNumber(PrevDay(d)) == DayNumber(d) - 1
  {
    NextPrevInverse(d);
    NextDayNumber(PrevDay(d));
  }

  /** `date.weekday()`: Monday is 0 and Sunday is 6. */
  function Weekday(d: Date): (w: int)
    requires IsDate(d)
    ensures 0 <= w < 7
  {
    (DayNumber(d) + 6) % 7
  }

  /** Weekdays follow one another: the day after a Sunday is a Monday. */
  lemma NextDayWeekday(d: Date)
    requires IsDate(d)
    ensures Weekday(NextDay(d)) == (Weekday(d) + 1) % 7
  {
    NextDayNumber(d);
    ModSevenSucc(DayNumber(d) + 6);
  }

  lemma ModSevenSucc(n: int)
    ensures (n + 1) % 7 == (n % 7 + 1) % 7
  {
    var q, w := n / 7, n % 7;
    assert n + 1 == 7 * q + (w + 1);
    if w == 6 {
      assert n + 1 == 7 * (q + 1);
    }
  }

  /** 2024-01-01 was a Monday. */
  lemma WeekdayNewYear2024()
    ensures Weekday(Date(2024, 1, 1)) == 0
  {
    assert DayNumber(Date(2024, 1, 1)) == 738886;
  }

  /** `day_name()` for the weekday numbers 0 to 6. */
  function DayName(w: int): string
    requires 0 <= w < 7
  {
    ["Monday", "Tuesday", "Wednesday", "Thursday", "Friday", "Saturday", "Sunday"][w]
  }

  /** A wall-clock time to the microsecond on a calendar day. */
  datatype DateTime = DateTime(date: Date, hour: int, minute: int, second: int, micro: int)

  predicate IsDateTime(t: DateTime) {
    IsDate(t.date) && 0 <= t.hour < 24 && 0 <= t.minute < 60 && 0 <= t.second < 60
    && 0 <= t.micro < 1000000
  }

  /** Microseconds since the start of day 0 of the ordinal calendar: the time line. */
  function Micros(t: DateTime): int
    requires IsDate(t.date)
  {
    (((DayNumber(t.date) * 24 + t.hour) * 60 + t.minute) * 60 + t.second) * 1000000 + t.micro
  }

  const MicrosPerHour: int := 3600 * 1000000

  /** The same instant `h` hours later on the wall clock, for 0 <= h < 24. */
  function AddHours(t: DateTime, h: int): (r: DateTime)
    requires IsDateTime(t) && 0 <= h < 24
    ensures IsDateTime(r)
    ensures r.minute == t.minute && r.second == t.second && r.micro == t.micro
  {
    if t.hour + h < 24 then t.(hour := t.hour + h)
    else t.(date := NextDay(t.date), hour := t.hour + h - 24)
  }

  /** Shifting the wall clock by `h` hours moves the instant by exactly `h` hours. */
  lemma AddHoursMicros(t: DateTime, h: int)
    requires IsDateTime(t) && 0 <= h < 24
    ensures Micros(AddHours(t, h)) == Micros(t) + h * MicrosPerHour
  {
    if t.hour + h >= 24 {
      NextDayNumber(t.date);
    }
  }

  /** Asia/Tokyo keeps UTC+9 all year, with no daylight saving time. */
  const TokyoOffsetHours: int := 9

  /** `tz_convert('Asia/Tokyo')` of a UTC time. */
  function ToTokyo(utc: DateTime): DateTime
    requires IsDateTime(utc)
  {
    AddHours(utc, TokyoOffsetHours)
  }

  /** The summer months of the session rule: March through October. */
  predicate IsSummerMonth(m: int) {
    3 <= m <= 10
  }

  /** Tokyo hour at which the CME session opens: 7 in summer months, 8 otherwise. */
  function SessionStartHour(m: int): (h: int)
    ensures IsSummerMonth(m) ==> h == 7
    ensures !IsSummerMonth(m) ==> h == 8
  {
    if IsSummerMonth(m) then 7 else 8
  }

  /**
   * `_get_cme_trading_date`: a Tokyo time before the session opens belongs to the
   * previous calendar day's session, any later time to its own day.
   */
  function CmeTradingDate(jst: DateTime): (d: Date)
    requires IsDateTime(jst)
    ensures IsDate(d)
    ensures jst.hour < SessionStartHour(jst.date.month) ==> NextDay(d) == jst.date
    ensures jst.hour >= SessionStartHour(jst.date.month) ==> d == jst.date
    ensures DayNumber(d) == DayNumber(jst.date) - (if jst.hour < SessionStartHour(jst.date.month) then 1 else 0)
  {
    NextPrevInverse(jst.date);
    PrevDayNumber(jst.date);
    if jst.hour < SessionStartHour(jst.date.month) then PrevDay(jst.date) else jst.date
  }

  /**
   * The rule read in UTC: a trade belongs to its UTC day unless it falls at or after the
   * session open, 22:00 UTC in summer months and 23:00 UTC otherwise (the month being the
   * Tokyo one), when it belongs to the next UTC day.
   */
  function UtcTradingDate(utc: DateTime): Date
    requires IsDateTime(utc)
  {
    var opensAt := SessionStartHour(ToTokyo(utc).date.month) + 24 - TokyoOffsetHours;
    if utc.hour >= opensAt then NextDay(utc.date) else utc.date
  }

  lemma TradingDateFromUtc(utc: DateTime)
    requires IsDateTime(utc)
    ensures CmeTradingDate(ToTokyo(utc)) == UtcTradingDate(utc)
  {
    if utc.hour + TokyoOffsetHours >= 24 {
      NextPrevInverse(NextDay(utc.date));
      NextPrevInverse(utc.date);
    }
  }

  /** 06:59 in July is before the 07:00 summer open, so it belongs to the previous day. */
  lemma ExampleEarlyJuly()
    ensures CmeTradingDate(DateTime(Date(2025, 7, 15), 6, 59, 0, 0)) == Date(2025, 7, 14)
  {
  }

  /** 07:30 in December is before the 08:00 winter open, so it belongs to the previous day. */
  lemma ExampleEarlyDecember()
    ensures CmeTradingDate(DateTime(Date(2025, 12, 1), 7, 30, 0, 0)) == Date(2025, 11, 30)
  {
  }

  /** 07:30 in July is after the open: the same day. */
  lemma ExampleMorningJuly()
    ensures CmeTradingDate(DateTime(Date(2025, 7, 15), 7, 30, 0, 0)) == Date(2025, 7, 15)
  {
  }

  /** New Year's Day before the open belongs to 31 December of the year before. */
  lemma ExampleNewYear()
    ensures CmeTradingDate(DateTime(Date(2025, 1, 1), 3, 0, 0, 0)) == Date(2024, 12, 31)
  {
  }
}
