/** Civil dates from days counted from the Unix epoch. */
module Calendar {
  // `CivilFromDays` is the division formula the program uses. The calendar it is measured against
  // is the plain one: twelve month lengths, the leap-year rule, and one step from a date to the
  // next.

  datatype Date = Date(year: int, month: int, day: int)

  // ---------------------------------------------------------------- the plain calendar

  predicate IsLeap(year: int) {
    year % 4 == 0 && (year % 100 != 0 || year % 400 == 0)
  }

  function DaysInMonth(year: int, month: int): int {
    if month == 2 then (if IsLeap(year) then 29 else 28)
    else if month in {4, 6, 9, 11} then 30
    else 31
  }

  predicate IsDate(date: Date) {
    && 1 <= date.month <= 12
    && 1 <= date.day <= DaysInMonth(date.year, date.month)
  }

  /** The day after `date`. */
  function Next(date: Date): Date {
    if date.day < DaysInMonth(date.year, date.month) then date.(day := date.day + 1)
    else if date.month < 12 then Date(date.year, date.month + 1, 1)
    else Date(date.year + 1, 1, 1)
  }

  /** `n` steps of the calendar from `date`. */
  function Advance(date: Date, n: nat): Date {
    if n == 0 then date else Next(Advance(date, n - 1))
  }

  predicate Before(a: Date, b: Date) {
    || a.year < b.year
    || (a.year == b.year && a.month < b.month)
    || (a.year == b.year && a.month == b.month && a.day < b.day)
  }

  const EPOCH := Date(1970, 1, 1)

  // ---------------------------------------------------------------- the formula

  /** Integer division that rounds toward zero, as the program's signed division does. */
  function TruncDiv(a: int, b: int): int
    requires b > 0
  {
    if a >= 0 then a / b else -((-a) / b)
  }

  /** The era of a day counted from 0000-03-01, and the day inside that era. */
  function Era(z: int): int {
    TruncDiv(if z >= 0 then z else z - 146_096, 146_097)
  }

  /** Year of the era, counted in years that start on the first of March. */
  function YearOfEra(doe: int): int {
    (doe - doe / 1460 + doe / 36_524 - doe / 146_096) / 365
  }

  /** The date of day `doy` of the March-based year `y`. */
  function FromMarch(y: int, doy: int): Date {
    var mp := (5 * doy + 2) / 153;
    var month := if mp < 10 then mp + 3 else mp - 9;
    Date(if month <= 2 then y + 1 else y, month, doy - (153 * mp + 2) / 5 + 1)
  }

  function CivilFromDays(days: int): Date {
    var z := days + 719_468;
    var era := Era(z);
    var doe := z - era * 146_097;
    var yoe := YearOfEra(doe);
    var y := yoe + era * 400;
    var doy := doe - (365 * yoe + yoe / 4 - yoe / 100);
    FromMarch(y, doy)
  }

  // ---------------------------------------------------------------- proofs
  //
  // A day is taken apart into its era, century of the era, four-year cycle of the century,
  // year of the cycle and day of that year, where years start on the first of March. In those
  // parts the calendar needs no division.

  /** Whether the parts name a day; the last year of a cycle holds the leap day. */
  predicate AreParts(c: int, q: int, a: int, d: int) {
    && 0 <= c <= 3 && 0 <= q <= 24 && 0 <= a <= 3
    && 0 <= d < (if IsLeapPart(c, q, a) then 366 else 365)
  }

  predicate IsLeapPart(c: int, q: int, a: int) {
    a == 3 && (q != 24 || c == 3)
  }

  function DayOfEra(c: int, q: int, a: int, d: int): int {
    36_524 * c + 1461 * q + 365 * a + d
  }

  /** The day number, from the Unix epoch, that the parts name. */
  function DayOfParts(era: int, c: int, q: int, a: int, d: int): int {
    146_097 * era + 36_524 * c + 1461 * q + 365 * a + d - 719_468
  }

  function YearOfParts(era: int, c: int, q: int, a: int): int {
    400 * era + 100 * c + 4 * q + a
  }

  /** Truncation plus the correction for negative days is floor division. */
  lemma EraIsFloor(z: int, era: int, doe: int)
    requires z == era * 146_097 + doe && 0 <= doe < 146_097
    ensures Era(z) == era
  {
  }

  /** The quotient formula recovers the year of the era from one of its days. */
  lemma YearOfEraFound(c: int, q: int, a: int, d: int)
    requires AreParts(c, q, a, d)
    ensures YearOfEra(DayOfEra(c, q, a, d)) == 100 * c + 4 * q + a
    ensures 0 <= DayOfEra(c, q, a, d) < 146_097
  {
    var doe := DayOfEra(c, q, a, d);
    var e := if 24 * c + q + 365 * a + d >= 1460 then 1 else 0;
    assert doe / 1460 == 25 * c + q + e;
    assert doe / 36_524 - doe / 146_096 == c;
    assert d == 365 ==> e == 1;
  }

  lemma CivilOfParts(era: int, c: int, q: int, a: int, d: int)
    requires AreParts(c, q, a, d)
    ensures CivilFromDays(DayOfParts(era, c, q, a, d)) == FromMarch(YearOfParts(era, c, q, a), d)
  {
    hide FromMarch, YearOfEra, Era;
    YearOfEraFound(c, q, a, d);
    var doe := DayOfEra(c, q, a, d);
    EraIsFloor(DayOfParts(era, c, q, a, d) + 719_468, era, doe);
    var yoe := 100 * c + 4 * q + a;
    assert yoe / 4 == 25 * c + q && yoe / 100 == c;
    assert doe - (365 * yoe + yoe / 4 - yoe / 100) == d;
  }

  /** Every integer is a day: it has parts. */
  lemma PartsOfDay(days: int) returns (era: int, c: int, q: int, a: int, d: int)
    ensures AreParts(c, q, a, d) && DayOfParts(era, c, q, a, d) == days
  {
    var z := days + 719_468;
    era := z / 146_097;
    var doe := z % 146_097;
    c := if doe / 36_524 < 3 then doe / 36_524 else 3;
    var r := doe - 36_524 * c;
    q := r / 1461;
    var s := r % 1461;
    a := if s / 365 < 3 then s / 365 else 3;
    d := s - 365 * a;
  }

  lemma LeapYearOfParts(era: int, c: int, q: int, a: int)
    requires 0 <= c <= 3 && 0 <= q <= 24 && 0 <= a <= 3
    ensures IsLeap(YearOfParts(era, c, q, a) + 1) == IsLeapPart(c, q, a)
  {
    var y := YearOfParts(era, c, q, a) + 1;
    assert y == 4 * (100 * era + 25 * c + q) + a + 1;
    assert y == 100 * (4 * era + c) + 4 * q + a + 1;
    assert y == 400 * era + 100 * c + 4 * q + a + 1;
  }

  /** March-based dates follow the month lengths. */
  lemma FromMarchSteps(y: int, doy: int)
    requires 0 <= doy < (if IsLeap(y + 1) then 366 else 365)
    ensures IsDate(FromMarch(y, doy))
    ensures FromMarch(if doy + 1 < (if IsLeap(y + 1) then 366 else 365) then y else y + 1,
                      if doy + 1 < (if IsLeap(y + 1) then 366 else 365) then doy + 1 else 0)
         == Next(FromMarch(y, doy))
  {
  }

  /** The parts of the next day. */
  lemma PartsAfter(era: int, c: int, q: int, a: int, d: int) returns (e': int, c': int, q': int, a': int, d': int)
    requires AreParts(c, q, a, d)
    ensures AreParts(c', q', a', d') && DayOfParts(e', c', q', a', d') == DayOfParts(era, c, q, a, d) + 1
    ensures d' == (if AreParts(c, q, a, d + 1) then d + 1 else 0)
    ensures YearOfParts(e', c', q', a')
         == YearOfParts(era, c, q, a) + (if AreParts(c, q, a, d + 1) then 0 else 1)
  {
    e', c', q', a', d' := era, c, q, a, 0;
    if AreParts(c, q, a, d + 1) {
      d' := d + 1;
    } else if a < 3 {
      a' := a + 1;
    } else if q < 24 {
      q', a' := q + 1, 0;
    } else if c < 3 {
      c', q', a' := c + 1, 0, 0;
    } else {
      e', c', q', a' := era + 1, 0, 0, 0;
    }
  }

  /** Days inside a year are consecutive, and the last day of a year is followed by the next year. */
  lemma CivilAfter(era: int, c: int, q: int, a: int, d: int)
    requires AreParts(c, q, a, d)
    ensures CivilFromDays(DayOfParts(era, c, q, a, d) + 1)
         == if AreParts(c, q, a, d + 1) then FromMarch(YearOfParts(era, c, q, a), d + 1)
            else FromMarch(YearOfParts(era, c, q, a) + 1, 0)
  {
    hide CivilFromDays, FromMarch, DayOfParts, YearOfParts, AreParts;
    var e', c', q', a', d' := PartsAfter(era, c, q, a, d);
    CivilOfParts(e', c', q', a', d');
  }

  /** The formula is the calendar: each day has a date, and the next day has the next date. */
  lemma CivilFollowsTheCalendar(days: int)
    ensures IsDate(CivilFromDays(days))
    ensures CivilFromDays(days + 1) == Next(CivilFromDays(days))
  {
    hide CivilFromDays, FromMarch;
    var era, c, q, a, d := PartsOfDay(days);
    CivilOfParts(era, c, q, a, d);
    LeapYearOfParts(era, c, q, a);
    FromMarchSteps(YearOfParts(era, c, q, a), d);
    CivilAfter(era, c, q, a, d);
  }

  lemma CivilStartsAtTheEpoch()
    ensures CivilFromDays(0) == EPOCH
  {
    CivilOfParts(4, 3, 17, 1, 306);
  }

  lemma NextIsLater(date: Date)
    requires IsDate(date)
    ensures Before(date, Next(date))
  {
  }

  /** Later days have later dates: the formula is strictly increasing, hence injective. */
  lemma {:induction false} CivilPreservesOrder(a: int, b: int)
    requires a < b
    ensures Before(CivilFromDays(a), CivilFromDays(b))
    decreases b - a
  {
    hide CivilFromDays;
    CivilFollowsTheCalendar(b - 1);
    NextIsLater(CivilFromDays(b - 1));
    if a < b - 1 {
      CivilPreservesOrder(a, b - 1);
    }
  }

  /** `n` days later the calendar has taken `n` steps, from any day, before the epoch too. */
  lemma {:induction false} CivilCountsDays(days: int, n: nat)
    ensures CivilFromDays(days + n) == Advance(CivilFromDays(days), n)
  {
    hide CivilFromDays;
    if n > 0 {
      CivilCountsDays(days, n - 1);
      CivilFollowsTheCalendar(days + n - 1);
    }
  }

  lemma NextIsInjective(a: Date, b: Date)
    requires IsDate(a) && IsDate(b) && Next(a) == Next(b)
    ensures a == b
  {
  }

  /** Nothing else dates the days so: a dating of all days that names 1970-01-01 day 0 and steps
      by the calendar, forward and back, agrees with the formula on every day. */
  lemma {:induction false} CivilIsTheOnlyCalendar(dating: int -> Date, days: int)
    requires dating(0) == EPOCH
    requires forall d :: IsDate(dating(d)) && dating(d + 1) == Next(dating(d))
    ensures dating(days) == CivilFromDays(days)
    decreases if days >= 0 then days else -days
  {
    hide CivilFromDays;
    if days > 0 {
      CivilIsTheOnlyCalendar(dating, days - 1);
      CivilFollowsTheCalendar(days - 1);
      assert dating(days - 1 + 1) == Next(dating(days - 1));
    } else if days < 0 {
      CivilIsTheOnlyCalendar(dating, days + 1);
      CivilFollowsTheCalendar(days);
      NextIsInjective(dating(days), CivilFromDays(days));
    } else {
      CivilStartsAtTheEpoch();
    }
  }

  /** No date is skipped: a date between the dates of two days is the date of a day between them. */
  lemma {:induction false} CivilSkipsNoDate(a: int, b: int, date: Date) returns (days: int)
    requires a <= b && IsDate(date)
    requires !Before(date, CivilFromDays(a)) && !Before(CivilFromDays(b), date)
    ensures a <= days <= b && CivilFromDays(days) == date
    decreases b - a
  {
    hide CivilFromDays;
    if date == CivilFromDays(b) {
      return b;
    }
    CivilFollowsTheCalendar(b);
    CivilFollowsTheCalendar(b - 1);
    days := CivilSkipsNoDate(a, b - 1, date);
  }
}
