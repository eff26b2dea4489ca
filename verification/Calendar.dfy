/** Proleptic Gregorian dates in UTC, as `chrono::DateTime<Utc>` counts them.  Years run from 0000
    to 9999, the range section 5.6 of RFC 3339 can write; there are no leap seconds. */
module Calendar {

  /** A point in time: nanoseconds since 1970-01-01T00:00:00Z. */
  type Instant = int

  const NANOS_PER_SEC := 1_000_000_000
  const NANOS_PER_DAY := 86_400_000_000_000

  /** Days from 0000-01-01 to 1970-01-01. */
  const EPOCH_DAY := 719_528

  /** Days from 0000-01-01 to 10000-01-01. */
  const DAY_LIMIT := 3_652_425

  /** A date and a time of day, broken into the fields a timestamp text shows. */
  datatype Civil = Civil(year: int, month: int, day: int, hour: int, minute: int, second: int, nano: int)

  predicate IsLeap(year: int) {
    year % 4 == 0 && (year % 100 != 0 || year % 400 == 0)
  }

  function YearLength(year: int): int {
    if IsLeap(year) then 366 else 365
  }

  function DaysInMonth(leap: bool, month: int): (n: int)
    requires 1 <= month <= 12
    ensures 28 <= n <= 31
  {
    if month == 2 then (if leap then 29 else 28)
    else if month in {4, 6, 9, 11} then 30
    else 31
  }

  /** Days from 0000-01-01 to the first of January of `year`. */
  function DaysBeforeYear(year: int): int {
    365 * year + (year + 3) / 4 - (year + 99) / 100 + (year + 399) / 400
  }

  /** Days from the first of January to the first of `month`. */
  function DaysBeforeMonth(leap: bool, month: int): (n: int)
    requires 1 <= month <= 13
    decreases month
  {
    if month == 1 then 0 else DaysBeforeMonth(leap, month - 1) + DaysInMonth(leap, month - 1)
  }

  predicate ValidDate(year: int, month: int, day: int) {
    0 <= year <= 9999 && 1 <= month <= 12 && 1 <= day <= DaysInMonth(IsLeap(year), month)
  }

  predicate ValidTime(hour: int, minute: int, second: int, nano: int) {
    0 <= hour < 24 && 0 <= minute < 60 && 0 <= second < 60 && 0 <= nano < NANOS_PER_SEC
  }

  predicate Valid(c: Civil) {
    ValidDate(c.year, c.month, c.day) && ValidTime(c.hour, c.minute, c.second, c.nano)
  }

  function DayNumber(year: int, month: int, day: int): int
    requires 1 <= month <= 12
  {
    DaysBeforeYear(year) + DaysBeforeMonth(IsLeap(year), month) + day - 1
  }

  function SecondOfDay(hour: int, minute: int, second: int): int {
    3600 * hour + 60 * minute + second
  }

  /** The instant a date and time of day name. */
  function FromCivil(c: Civil): Instant
    requires Valid(c)
  {
    (DayNumber(c.year, c.month, c.day) - EPOCH_DAY) * NANOS_PER_DAY
    + SecondOfDay(c.hour, c.minute, c.second) * NANOS_PER_SEC + c.nano
  }

  /** The instants whose UTC date has a four-digit year. */
  predicate InRange(t: Instant) {
    -EPOCH_DAY * NANOS_PER_DAY <= t < (DAY_LIMIT - EPOCH_DAY) * NANOS_PER_DAY
  }

  /** The year a day falls in, from the mean year length corrected by at most one. */
  function YearOf(day: int): int {
    var guess := day * 400 / 146_097;
    if day < DaysBeforeYear(guess) then guess - 1
    else if DaysBeforeYear(guess + 1) <= day then guess + 1
    else guess
  }

  /** The month a day of the year falls in, searching upwards from `month`. */
  function MonthOf(leap: bool, dayOfYear: int, month: int): (m: int)
    requires 1 <= month <= 12
    decreases 12 - month
    ensures month <= m <= 12
  {
    if month == 12 || dayOfYear < DaysBeforeMonth(leap, month + 1) then month
    else MonthOf(leap, dayOfYear, month + 1)
  }

  /** The year, month and day of the month of a day. */
  function DateOf(day: int): (int, int, int) {
    var year := YearOf(day);
    var dayOfYear := day - DaysBeforeYear(year);
    var month := MonthOf(IsLeap(year), dayOfYear, 1);
    (year, month, dayOfYear - DaysBeforeMonth(IsLeap(year), month) + 1)
  }

  /** The day an instant falls in, counted from 1970-01-01. */
  function DayOf(t: Instant): int {
    t / 86_400_000_000_000
  }

  /** Nanoseconds since the start of that day. */
  function NanoOfDay(t: Instant): (n: int)
    ensures 0 <= n < NANOS_PER_DAY
    ensures t == DayOf(t) * NANOS_PER_DAY + n
  {
    t % 86_400_000_000_000
  }

  /** The time of day `n` nanoseconds after midnight: hour, minute, second and nanosecond. */
  function TimeOf(n: int): (int, int, int, int) {
    (n / 3_600_000_000_000, n / 60_000_000_000 % 60, n / 1_000_000_000 % 60, n % 1_000_000_000)
  }

  /** The UTC date and time of day of an instant. */
  function ToCivil(t: Instant): Civil {
    var (year, month, day) := DateOf(DayOf(t) + EPOCH_DAY);
    var (hour, minute, second, nano) := TimeOf(NanoOfDay(t));
    Civil(year, month, day, hour, minute, second, nano)
  }

  // ── Dates ─────────────────────────────────────────────────────────────────

  lemma FourYears(year: int)
    ensures (year + 4) / 4 == (year + 3) / 4 + (if year % 4 == 0 then 1 else 0)
  {
  }

  lemma Century(year: int)
    ensures (year + 100) / 100 == (year + 99) / 100 + (if year % 100 == 0 then 1 else 0)
    ensures year % 100 == 0 ==> year % 4 == 0
  {
    if year % 100 == 0 {
      assert year == 4 * (25 * (year / 100));
    }
  }

  lemma FourCenturies(year: int)
    ensures (year + 400) / 400 == (year + 399) / 400 + (if year % 400 == 0 then 1 else 0)
    ensures year % 400 == 0 ==> year % 100 == 0
  {
    if year % 400 == 0 {
      assert year == 100 * (4 * (year / 400));
    }
  }

  /** The closed form for `DaysBeforeYear` counts exactly the Gregorian year lengths. */
  lemma YearLengthsAddUp(year: int)
    ensures DaysBeforeYear(0) == 0
    ensures DaysBeforeYear(year + 1) == DaysBeforeYear(year) + YearLength(year)
  {
    FourYears(year);
    Century(year);
    FourCenturies(year);
  }

  lemma {:induction false} YearsAreOrdered(year: int, later: int)
    requires year <= later
    ensures DaysBeforeYear(year) <= DaysBeforeYear(later)
    ensures year < later ==> DaysBeforeYear(year + 1) <= DaysBeforeYear(later)
    decreases later - year
  {
    if year < later {
      YearLengthsAddUp(year);
      YearsAreOrdered(year + 1, later);
    }
  }

  lemma YearOfIsRight(day: int)
    requires 0 <= day < DAY_LIMIT
    ensures 0 <= YearOf(day) <= 9999
    ensures DaysBeforeYear(YearOf(day)) <= day < DaysBeforeYear(YearOf(day) + 1)
  {
    YearOfBrackets(day);
    var year := YearOf(day);
    if year < 0 {
      YearsAreOrdered(year + 1, 0);
      assert false;
    }
    if 9999 < year {
      YearsAreOrdered(10_000, year);
      assert false;
    }
  }

  lemma YearOfBrackets(day: int)
    ensures DaysBeforeYear(YearOf(day)) <= day < DaysBeforeYear(YearOf(day) + 1)
  {
    var guess := day * 400 / 146_097;
    MeanYear(guess - 1);
    MeanYear(guess + 2);
    hide DaysBeforeYear;
    assert 146_097 * guess <= 400 * day < 146_097 * guess + 146_097;
  }

  /** The start of a year is never far from its mean position. */
  lemma MeanYear(year: int)
    ensures 146_097 * year - 400 <= 400 * DaysBeforeYear(year) <= 146_097 * year + 600
  {
    var q := year / 400;
    var r := year % 400;
    assert (year + 3) / 4 == 100 * q + (r + 3) / 4;
    assert (year + 99) / 100 == 4 * q + (r + 99) / 100;
    assert (year + 399) / 400 == q + (r + 399) / 400;
    assert (r + 399) / 400 == if r == 0 then 0 else 1;
    var h := (r + 99) / 100;
    assert 100 * h - 99 <= r <= 100 * h;
    var f := (r + 3) / 4;
    assert 4 * f - 3 <= r <= 4 * f;
  }

  lemma {:induction false} MonthsAreOrdered(leap: bool, month: int, later: int)
    requires 1 <= month < later <= 13
    ensures DaysBeforeMonth(leap, month + 1) <= DaysBeforeMonth(leap, later)
    decreases later
  {
    if month + 1 < later {
      MonthsAreOrdered(leap, month, later - 1);
    }
  }

  lemma {:induction false} MonthsFillTheYear(leap: bool)
    ensures DaysBeforeMonth(leap, 13) == if leap then 366 else 365
  {
    assert DaysBeforeMonth(leap, 4) == if leap then 91 else 90;
    assert DaysBeforeMonth(leap, 7) == DaysBeforeMonth(leap, 4) + 91;
    assert DaysBeforeMonth(leap, 10) == DaysBeforeMonth(leap, 7) + 92;
    assert DaysBeforeMonth(leap, 13) == DaysBeforeMonth(leap, 10) + 92;
  }

  lemma {:induction false} MonthOfIsRight(leap: bool, dayOfYear: int, month: int)
    requires 1 <= month <= 12
    requires DaysBeforeMonth(leap, month) <= dayOfYear < DaysBeforeMonth(leap, 13)
    ensures var m := MonthOf(leap, dayOfYear, month);
            DaysBeforeMonth(leap, m) <= dayOfYear < DaysBeforeMonth(leap, m + 1)
    decreases 12 - month
  {
    hide DaysInMonth;
    if month < 12 && DaysBeforeMonth(leap, month + 1) <= dayOfYear {
      MonthOfIsRight(leap, dayOfYear, month + 1);
    }
  }

  lemma DateRoundTrip(number: int)
    requires 0 <= number < DAY_LIMIT
    ensures var (year, month, day) := DateOf(number);
            ValidDate(year, month, day) && DayNumber(year, month, day) == number
  {
    YearOfIsRight(number);
    var year := YearOf(number);
    YearLengthsAddUp(year);
    MonthsFillTheYear(IsLeap(year));
    MonthOfIsRight(IsLeap(year), number - DaysBeforeYear(year), 1);
  }

  /** Every instant in range has a valid date and time, and they name that instant again. */
  lemma CivilRoundTrip(t: Instant)
    requires InRange(t)
    ensures Valid(ToCivil(t)) && FromCivil(ToCivil(t)) == t
  {
    hide DateOf, YearOf, MonthOf, DayNumber, TimeOf, DaysInMonth;
    var n := NanoOfDay(t);
    DayInRange(t);
    DateRoundTrip(DayOf(t) + EPOCH_DAY);
    TimeOfDayRoundTrip(n);
  }

  lemma DayInRange(t: Instant)
    requires InRange(t)
    ensures 0 <= DayOf(t) + EPOCH_DAY < DAY_LIMIT
  {
  }

  lemma TimeOfDayRoundTrip(n: int)
    requires 0 <= n < NANOS_PER_DAY
    ensures var (hour, minute, second, nano) := TimeOf(n);
            && ValidTime(hour, minute, second, nano)
            && SecondOfDay(hour, minute, second) * NANOS_PER_SEC + nano == n
  {
    var s := n / 1_000_000_000;
    assert n / 60_000_000_000 == s / 60;
    assert n / 3_600_000_000_000 == s / 60 / 60;
  }

  // ── Order ─────────────────────────────────────────────────────────────────

  /** `a`'s date is written before `b`'s: the first differing field of year, month, day decides. */
  predicate DateBefore(a: Civil, b: Civil) {
    || a.year < b.year
    || (a.year == b.year && (a.month < b.month || (a.month == b.month && a.day < b.day)))
  }

  predicate SameDate(a: Civil, b: Civil) {
    a.year == b.year && a.month == b.month && a.day == b.day
  }

  predicate TimeBefore(a: Civil, b: Civil) {
    || a.hour < b.hour
    || (a.hour == b.hour && (a.minute < b.minute || (a.minute == b.minute && a.second < b.second)))
  }

  predicate SameTime(a: Civil, b: Civil) {
    a.hour == b.hour && a.minute == b.minute && a.second == b.second
  }

  /** Field by field, largest unit first. */
  predicate Before(a: Civil, b: Civil) {
    || DateBefore(a, b)
    || (SameDate(a, b) && (TimeBefore(a, b) || (SameTime(a, b) && a.nano < b.nano)))
  }

  lemma DayBounds(c: Civil)
    requires Valid(c)
    ensures DaysBeforeYear(c.year) <= DayNumber(c.year, c.month, c.day) < DaysBeforeYear(c.year + 1)
  {
    var leap := IsLeap(c.year);
    YearLengthsAddUp(c.year);
    MonthsFillTheYear(leap);
    MonthsAreOrdered(leap, c.month, 13);
    if 1 < c.month {
      MonthsAreOrdered(leap, 1, c.month);
    }
  }

  lemma EarlierDateEarlierDay(a: Civil, b: Civil)
    requires Valid(a) && Valid(b) && DateBefore(a, b)
    ensures DayNumber(a.year, a.month, a.day) < DayNumber(b.year, b.month, b.day)
  {
    hide DaysInMonth, IsLeap, DaysBeforeYear;
    if a.year < b.year {
      DayBounds(a);
      DayBounds(b);
      YearsAreOrdered(a.year, b.year);
    } else if a.month < b.month {
      MonthsAreOrdered(IsLeap(a.year), a.month, b.month);
    }
  }

  lemma EarlierFieldsEarlierInstant(a: Civil, b: Civil)
    requires Valid(a) && Valid(b) && Before(a, b)
    ensures FromCivil(a) < FromCivil(b)
  {
    if DateBefore(a, b) {
      EarlierDateEarlierDay(a, b);
    }
  }

  /** Comparing dates field by field is comparing instants. */
  lemma FieldOrderIsTimeOrder(s: Instant, t: Instant)
    requires InRange(s) && InRange(t)
    ensures Before(ToCivil(s), ToCivil(t)) <==> s < t
  {
    hide ToCivil, FromCivil, Valid, InRange;
    CivilRoundTrip(s);
    CivilRoundTrip(t);
    var a, b := ToCivil(s), ToCivil(t);
    if Before(a, b) {
      EarlierFieldsEarlierInstant(a, b);
    } else if Before(b, a) {
      EarlierFieldsEarlierInstant(b, a);
    } else {
      assert a == b;
    }
  }

  // ── By the calendar on the wall ───────────────────────────────────────────

  /** Where the months start, in days from the first of January. */
  lemma MonthStarts(leap: bool)
    ensures var l := if leap then 1 else 0;
            && DaysBeforeMonth(leap, 1) == 0 && DaysBeforeMonth(leap, 2) == 31
            && DaysBeforeMonth(leap, 3) == 59 + l && DaysBeforeMonth(leap, 4) == 90 + l
            && DaysBeforeMonth(leap, 5) == 120 + l && DaysBeforeMonth(leap, 6) == 151 + l
            && DaysBeforeMonth(leap, 7) == 181 + l && DaysBeforeMonth(leap, 8) == 212 + l
            && DaysBeforeMonth(leap, 9) == 243 + l && DaysBeforeMonth(leap, 10) == 273 + l
            && DaysBeforeMonth(leap, 11) == 304 + l && DaysBeforeMonth(leap, 12) == 334 + l
            && DaysBeforeMonth(leap, 13) == 365 + l
  {
    assert DaysBeforeMonth(leap, 3) == 59 + (if leap then 1 else 0);
    assert DaysBeforeMonth(leap, 5) == DaysBeforeMonth(leap, 3) + 61;
    assert DaysBeforeMonth(leap, 7) == DaysBeforeMonth(leap, 5) + 61;
    assert DaysBeforeMonth(leap, 9) == DaysBeforeMonth(leap, 7) + 62;
    assert DaysBeforeMonth(leap, 11) == DaysBeforeMonth(leap, 9) + 61;
  }

  /** The date after a date: thirty days have April, June, September and November; February has 28, or 29 in years
      divisible by four but not by a hundred, unless by four hundred. */
  function TheDayAfter(date: (int, int, int)): (int, int, int) {
    var (year, month, day) := date;
    var last :=
      if month == 2 then (if year % 4 == 0 && (year % 100 != 0 || year % 400 == 0) then 29 else 28)
      else if month == 4 || month == 6 || month == 9 || month == 11 then 30
      else 31;
    if day < last then (year, month, day + 1)
    else if month < 12 then (year, month + 1, 1)
    else (year + 1, 1, 1)
  }

  /** Two dates that fall on one day are one date. */
  lemma DatesAreDays(a: (int, int, int), b: (int, int, int))
    requires ValidDate(a.0, a.1, a.2) && ValidDate(b.0, b.1, b.2)
    requires DayNumber(a.0, a.1, a.2) == DayNumber(b.0, b.1, b.2)
    ensures a == b
  {
    var (c, d) := (Civil(a.0, a.1, a.2, 0, 0, 0, 0), Civil(b.0, b.1, b.2, 0, 0, 0, 0));
    hide DayNumber, DaysInMonth, IsLeap;
    if DateBefore(c, d) {
      EarlierDateEarlierDay(c, d);
    } else if DateBefore(d, c) {
      EarlierDateEarlierDay(d, c);
    }
  }

  lemma NextDayNumber(year: int, month: int, day: int)
    requires ValidDate(year, month, day) && !(year == 9999 && month == 12 && day == 31)
    ensures var next := TheDayAfter((year, month, day));
            && ValidDate(next.0, next.1, next.2)
            && DayNumber(next.0, next.1, next.2) == DayNumber(year, month, day) + 1
  {
    YearLengthsAddUp(year);
    MonthStarts(IsLeap(year));
    hide DaysBeforeYear;
    var months := {1, 2, 3, 4, 5, 6, 7, 8, 9, 10, 11, 12};
    assert month in months;
  }

  /** Day by day the dates are those of the calendar. */
  lemma DatesFollowOneAnother(day: int)
    requires 0 <= day && day + 1 < DAY_LIMIT
    ensures DateOf(day + 1) == TheDayAfter(DateOf(day))
  {
    DateRoundTrip(day);
    DateRoundTrip(day + 1);
    var (year, month, date) := DateOf(day);
    hide DateOf, DayNumber;
    if year == 9999 && month == 12 && date == 31 {
      LastDay();
    }
    NextDayNumber(year, month, date);
    DatesAreDays(DateOf(day + 1), TheDayAfter((year, month, date)));
  }

  lemma LastDay()
    ensures DayNumber(9999, 12, 31) == DAY_LIMIT - 1
  {
    MonthStarts(false);
  }

  lemma NewYear(year: int, day: int)
    requires 0 <= year <= 9999
    requires day == 365 * year + (year + 3) / 4 - (year + 99) / 100 + (year + 399) / 400
    ensures DateOf(day) == (year, 1, 1)
  {
    assert DayNumber(year, 1, 1) == day;
    LastDay();
    if year < 9999 {
      EarlierDateEarlierDay(Civil(year, 1, 1, 0, 0, 0, 0), Civil(9999, 12, 31, 0, 0, 0, 0));
    }
    DateRoundTrip(day);
    hide DateOf, DayNumber;
    DatesAreDays(DateOf(day), (year, 1, 1));
  }

  /** The count of days starts on the first of January of the year 0, and instants on the first of January 1970. */
  lemma FirstDays()
    ensures DateOf(0) == (0, 1, 1) && DateOf(719_528) == (1970, 1, 1)
  {
    hide DateOf;
    NewYear(0, 0);
    NewYear(1970, 719_528);
  }

  /** The time of day counts hours of sixty minutes of sixty seconds from the midnight before the instant. */
  lemma TimesOfDay(t: Instant)
    requires InRange(t)
    ensures var c := ToCivil(t);
            && 0 <= c.hour < 24 && 0 <= c.minute < 60 && 0 <= c.second < 60 && 0 <= c.nano < 1_000_000_000
            && (c.year, c.month, c.day) == DateOf(t / 86_400_000_000_000 + 719_528)
            && t % 86_400_000_000_000
               == 3_600_000_000_000 * c.hour + 60_000_000_000 * c.minute + 1_000_000_000 * c.second + c.nano
  {
    TimeOfDayRoundTrip(NanoOfDay(t));
    hide DateOf;
  }
}
