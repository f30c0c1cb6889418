/** The calendar arithmetic of JavaScript's `Date` in the local time zone (ECMAScript
    MakeDay, MakeTime, MakeDate and the field getters), over days counted from
    0000-01-01 of the proleptic Gregorian calendar. Months are 0-based, as in `Date`. */
module Calendar {

  const MsPerSecond: int := 1000
  const MsPerMinute: int := 60000
  const MsPerHour: int := 3600000
  const MsPerDay: int := 86400000

  /** The day number of 1970-01-01, where time values start. */
  const EpochDay: int := 719528

  predicate IsLeapYear(y: int) {
    y % 4 == 0 && (y % 100 != 0 || y % 400 == 0)
  }

  function DaysInYear(y: int): int {
    if IsLeapYear(y) then 366 else 365
  }

  /** Length of month `mn` (0 = January) of year `y`. */
  function DaysInMonth(y: int, mn: int): int
    requires 0 <= mn < 12
  {
    if mn == 1 then (if IsLeapYear(y) then 29 else 28)
    else if mn == 3 || mn == 5 || mn == 8 || mn == 10 then 30
    else 31
  }

  /** Days of year `y` before the first of month `mn`; `mn == 12` gives the whole year. */
  function DaysBeforeMonth(y: int, mn: int): int
    requires 0 <= mn <= 12
  {
    (match mn
     case 0 => 0 case 1 => 31 case 2 => 59 case 3 => 90 case 4 => 120 case 5 => 151
     case 6 => 181 case 7 => 212 case 8 => 243 case 9 => 273 case 10 => 304 case 11 => 334
     case _ => 365)
    + (if mn >= 2 && IsLeapYear(y) then 1 else 0)
  }

  lemma MonthsFillYear(y: int, mn: int)
    requires 0 <= mn < 12
    ensures DaysBeforeMonth(y, mn + 1) == DaysBeforeMonth(y, mn) + DaysInMonth(y, mn)
    ensures DaysBeforeMonth(y, 12) == DaysInYear(y)
  {
  }

  /** Day number of 1 January of year `y`. */
  function DaysBeforeYear(y: int): int {
    365 * y + (y + 3) / 4 - (y + 99) / 100 + (y + 399) / 400
  }

  lemma YearLength(y: int)
    ensures DaysBeforeYear(y + 1) == DaysBeforeYear(y) + DaysInYear(y)
  {
    LeapStep4(y);
    LeapStep100(y);
    LeapStep400(y);
    LeapDivisors(y);
    assert DaysBeforeYear(y + 1) - DaysBeforeYear(y)
      == 365 + ((y + 4) / 4 - (y + 3) / 4) - ((y + 100) / 100 - (y + 99) / 100) + ((y + 400) / 400 - (y + 399) / 400);
  }

  lemma LeapStep4(y: int)
    ensures (y + 4) / 4 - (y + 3) / 4 == (if y % 4 == 0 then 1 else 0)
  {
  }

  lemma LeapStep100(y: int)
    ensures (y + 100) / 100 - (y + 99) / 100 == (if y % 100 == 0 then 1 else 0)
  {
  }

  lemma LeapStep400(y: int)
    ensures (y + 400) / 400 - (y + 399) / 400 == (if y % 400 == 0 then 1 else 0)
  {
  }

  /** A multiple of 400 is a multiple of 100, and a multiple of 100 one of 4. */
  lemma LeapDivisors(y: int)
    ensures y % 400 == 0 ==> y % 100 == 0
    ensures y % 100 == 0 ==> y % 4 == 0
  {
    if y % 400 == 0 {
      var q := y / 400;
      assert y == 100 * (4 * q);
      HundredsMod(4 * q);
    }
    if y % 100 == 0 {
      var q := y / 100;
      assert y == 4 * (25 * q);
      FoursMod(25 * q);
    }
  }

  lemma HundredsMod(j: int)
    ensures (100 * j) % 100 == 0
  {
  }

  lemma FoursMod(j: int)
    ensures (4 * j) % 4 == 0
  {
  }

  /** Four hundred years always have the same number of days. */
  lemma FourCenturies(y: int)
    ensures DaysBeforeYear(y + 400) == DaysBeforeYear(y) + 146097
  {
    assert (y + 403) / 4 == (y + 3) / 4 + 100;
    assert (y + 499) / 100 == (y + 99) / 100 + 4;
    assert (y + 799) / 400 == (y + 399) / 400 + 1;
  }

  lemma {:induction false} YearsIncrease(a: int, b: int)
    requires a < b
    ensures DaysBeforeYear(a + 1) <= DaysBeforeYear(b)
    decreases b - a
  {
    YearLength(a);
    if a + 1 < b {
      YearsIncrease(a + 1, b);
      YearLength(a + 1);
    }
  }

  /** A year's days come before the next year's. */
  lemma YearOfIsUnique(n: int, a: int, b: int)
    requires DaysBeforeYear(a) <= n < DaysBeforeYear(a + 1)
    requires DaysBeforeYear(b) <= n < DaysBeforeYear(b + 1)
    ensures a == b
  {
    if a < b {
      YearsIncrease(a, b);
    } else if b < a {
      YearsIncrease(b, a);
    }
  }

  lemma YearStartBelow(y: int)
    requires y >= 0
    ensures DaysBeforeYear(y) <= 366 * y
  {
    assert (y + 399) / 400 <= (y + 99) / 100 + 1;
    if y > 1 {
      assert (y + 3) / 4 <= y - 1;
    }
  }

  /** The year holding day `n`, searching upward from year `y`. */
  function YearFrom(n: int, y: int): (r: int)
    requires DaysBeforeYear(y) <= n
    ensures DaysBeforeYear(r) <= n < DaysBeforeYear(r + 1)
    decreases n - DaysBeforeYear(y)
  {
    YearLength(y);
    if DaysBeforeYear(y + 1) <= n then YearFrom(n, y + 1) else y
  }

  /** The year holding day `n` (ECMAScript YearFromTime). */
  function YearOf(n: int): (r: int)
    ensures DaysBeforeYear(r) <= n < DaysBeforeYear(r + 1)
  {
    if n >= 0 then
      SearchStart(n);
      YearFrom(n, n / 366)
    else
      var k := -n / 146097 + 1;
      assert n + 146097 * k >= 0;
      SearchStart(n + 146097 * k);
      var y := YearFrom(n + 146097 * k, (n + 146097 * k) / 366);
      ShiftedYear(n, k, y);
      y - 400 * k
  }

  /** The upward search for the year of a day `m >= 0` may start at year `m / 366`. */
  lemma SearchStart(m: int)
    requires m >= 0
    ensures DaysBeforeYear(m / 366) <= m
  {
    YearStartBelow(m / 366);
  }

  /** Moving a day by `k` cycles of 400 years moves its year by `400 * k`. */
  lemma ShiftedYear(n: int, k: nat, y: int)
    requires DaysBeforeYear(y) <= n + 146097 * k < DaysBeforeYear(y + 1)
    ensures DaysBeforeYear(y - 400 * k) <= n < DaysBeforeYear(y - 400 * k + 1)
  {
    CyclesShift(y - 400 * k, k);
    CyclesShift(y + 1 - 400 * k, k);
  }

  lemma {:induction false} CyclesShift(y: int, k: nat)
    ensures DaysBeforeYear(y + 400 * k) == DaysBeforeYear(y) + 146097 * k
  {
    if k > 0 {
      CyclesShift(y, k - 1);
      FourCenturies(y + 400 * (k - 1));
    }
  }

  /** The day of its year that day `n` is, counting from 0. */
  function DayInYear(n: int): (r: int)
    ensures 0 <= r < DaysInYear(YearOf(n))
  {
    YearLength(YearOf(n));
    n - DaysBeforeYear(YearOf(n))
  }

  function MonthFrom(y: int, dy: int, mn: int): (r: int)
    requires 0 <= mn < 12 && DaysBeforeMonth(y, mn) <= dy < DaysInYear(y)
    ensures mn <= r < 12
    ensures DaysBeforeMonth(y, r) <= dy < DaysBeforeMonth(y, r + 1)
    decreases 12 - mn
  {
    if mn < 11 && DaysBeforeMonth(y, mn + 1) <= dy then MonthFrom(y, dy, mn + 1) else mn
  }

  /** The month (0-based) holding day `n` (ECMAScript MonthFromTime). */
  function MonthOf(n: int): (r: int)
    ensures 0 <= r < 12
    ensures DaysBeforeMonth(YearOf(n), r) <= DayInYear(n) < DaysBeforeMonth(YearOf(n), r + 1)
  {
    MonthFrom(YearOf(n), DayInYear(n), 0)
  }

  /** The day of the month (from 1) of day `n` (ECMAScript DateFromTime). */
  function DateOf(n: int): (r: int)
    ensures 1 <= r <= DaysInMonth(YearOf(n), MonthOf(n))
  {
    DateInMonth(YearOf(n), MonthOf(n), DayInYear(n));
    DayInYear(n) - DaysBeforeMonth(YearOf(n), MonthOf(n)) + 1
  }

  lemma DateInMonth(y: int, mn: int, dy: int)
    requires 0 <= mn < 12 && DaysBeforeMonth(y, mn) <= dy < DaysBeforeMonth(y, mn + 1)
    ensures 1 <= dy - DaysBeforeMonth(y, mn) + 1 <= DaysInMonth(y, mn)
  {
    MonthsFillYear(y, mn);
  }

  /** The day number of day `date` (from 1) of month `mn` of year `y`. */
  function DayFromCivil(y: int, mn: int, date: int): int
    requires 0 <= mn < 12
  {
    DaysBeforeYear(y) + DaysBeforeMonth(y, mn) + date - 1
  }

  /** ECMAScript MakeDay: the day number of `date` of `month` of `year`, where a month
      outside 0..11 carries into the year and a date outside the month carries into
      neighbouring months. */
  function MakeDay(year: int, month: int, date: int): int {
    DayFromCivil(year + month / 12, month % 12, date)
  }

  /** Moving the date moves the day by as many days, whatever the month. */
  lemma MakeDayShift(year: int, month: int, a: int, b: int)
    ensures MakeDay(year, month, b) == MakeDay(year, month, a) + b - a
  {
  }

  /** Reading the fields of a day and rebuilding it gives the same day. */
  lemma FieldsRebuildDay(n: int)
    ensures MakeDay(YearOf(n), MonthOf(n), DateOf(n)) == n
  {
    var y, m := YearOf(n), MonthOf(n);
    RebuildArith(y, m, DateOf(n), n);
  }

  lemma RebuildArith(y: int, m: int, d: int, n: int)
    requires 0 <= m < 12 && d == n - DaysBeforeYear(y) - DaysBeforeMonth(y, m) + 1
    ensures MakeDay(y, m, d) == n
  {
    assert m / 12 == 0 && m % 12 == m;
  }

  /** A date inside its month is read back unchanged. */
  lemma MakeDayFields(year: int, month: int, date: int)
    requires 0 <= month < 12 && 1 <= date <= DaysInMonth(year, month)
    ensures YearOf(MakeDay(year, month, date)) == year
    ensures MonthOf(MakeDay(year, month, date)) == month
    ensures DateOf(MakeDay(year, month, date)) == date
  {
    assert month / 12 == 0 && month % 12 == month;
    var n := DayFromCivil(year, month, date);
    assert MakeDay(year, month, date) == n;
    var dy := DaysBeforeMonth(year, month) + date - 1;
    assert n == DaysBeforeYear(year) + dy;
    DayInMonthBounds(year, month, date);
    YearLength(year);
    YearOfIsUnique(n, year, YearOf(n));
    assert DayInYear(n) == dy;
    MonthOfIsUnique(year, dy, month, MonthOf(n));
  }

  lemma DayInMonthBounds(year: int, month: int, date: int)
    requires 0 <= month < 12 && 1 <= date <= DaysInMonth(year, month)
    ensures 0 <= DaysBeforeMonth(year, month) + date - 1 < DaysBeforeMonth(year, month + 1)
    ensures DaysBeforeMonth(year, month + 1) <= DaysInYear(year)
  {
    MonthsFillYear(year, month);
    MonthsIncrease(year, month + 1, 12);
  }

  lemma MonthOfIsUnique(y: int, dy: int, a: int, b: int)
    requires 0 <= a < 12 && 0 <= b < 12
    requires DaysBeforeMonth(y, a) <= dy < DaysBeforeMonth(y, a + 1)
    requires DaysBeforeMonth(y, b) <= dy < DaysBeforeMonth(y, b + 1)
    ensures a == b
  {
    if a < b {
      MonthsIncrease(y, a + 1, b);
    } else if b < a {
      MonthsIncrease(y, b + 1, a);
    }
  }

  lemma MonthsIncrease(y: int, a: int, b: int)
    requires 0 <= a <= b <= 12
    ensures DaysBeforeMonth(y, a) <= DaysBeforeMonth(y, b)
  {
  }

  /** Day 0 of a month is the last day of the month before. */
  lemma MonthEnd(year: int, month: int)
    requires 0 <= month < 12
    ensures MakeDay(year, month + 1, 0) == MakeDay(year, month, 1) + DaysInMonth(year, month) - 1
  {
    if month < 11 {
      MonthEndWithinYear(year, month);
    } else {
      DecemberEnd(year);
    }
  }

  lemma MonthEndWithinYear(year: int, month: int)
    requires 0 <= month < 11
    ensures MakeDay(year, month + 1, 0) == MakeDay(year, month, 1) + DaysInMonth(year, month) - 1
  {
    assert month / 12 == 0 && month % 12 == month;
    assert (month + 1) / 12 == 0 && (month + 1) % 12 == month + 1;
    MonthsFillYear(year, month);
  }

  lemma DecemberEnd(year: int)
    ensures MakeDay(year, 12, 0) == MakeDay(year, 11, 1) + DaysInMonth(year, 11) - 1
  {
    assert 11 / 12 == 0 && 11 % 12 == 11;
    assert 12 / 12 == 1 && 12 % 12 == 0;
    assert MakeDay(year, 12, 0) == DaysBeforeYear(year + 1) - 1;
    assert MakeDay(year, 11, 1) == DaysBeforeYear(year) + DaysBeforeMonth(year, 11);
    MonthsFillYear(year, 11);
    YearLength(year);
  }

  /** The day of the week of day `n`, 0 for Sunday. */
  function Weekday(n: int): (r: int)
    ensures 0 <= r < 7
  {
    (n + 6) % 7
  }

  lemma EpochIsThursday()
    ensures Weekday(EpochDay) == 4
    ensures MakeDay(1970, 0, 1) == EpochDay
  {
  }

  /** ECMAScript MakeTime on integer fields. */
  function MakeTime(hours: int, minutes: int, seconds: int, millis: int): int {
    hours * MsPerHour + minutes * MsPerMinute + seconds * MsPerSecond + millis
  }

  /** ECMAScript MakeDate: the time value `time` milliseconds into day `n`. */
  function MakeDate(n: int, time: int): int {
    (n - EpochDay) * MsPerDay + time
  }

  /** The day a time value falls on (ECMAScript Day, shifted to this day count). */
  function DayOfTime(t: int): int {
    t / MsPerDay + EpochDay
  }

  /** ECMAScript TimeWithinDay. */
  function TimeWithinDay(t: int): (r: int)
    ensures 0 <= r < MsPerDay
  {
    t % MsPerDay
  }

  lemma TimeSplits(t: int)
    ensures MakeDate(DayOfTime(t), TimeWithinDay(t)) == t
  {
  }

  /** A time within the day stays on its day. */
  lemma DayOfMakeDate(n: int, time: int)
    requires 0 <= time < MsPerDay
    ensures DayOfTime(MakeDate(n, time)) == n
    ensures TimeWithinDay(MakeDate(n, time)) == time
  {
    var t := MakeDate(n, time);
    assert t == (n - EpochDay) * MsPerDay + time;
  }

  /** `new Date(y, ...)` reads a year from 0 to 99 as 1900 to 1999. */
  function FullYear(year: int): (r: int)
    ensures 0 <= year <= 99 ==> r == 1900 + year
    ensures !(0 <= year <= 99) ==> r == year
  {
    if 0 <= year <= 99 then 1900 + year else year
  }

  /** A JavaScript `Date` whose local time equals its time value (no zone offset). */
  class DateTime {
    /** Milliseconds since 1970-01-01 00:00. */
    var time: int

    /** `new Date(year, monthIndex, date, hours, minutes, seconds, millis)`. */
    constructor (year: int, monthIndex: int, date: int, hours: int, minutes: int, seconds: int, millis: int)
      ensures time == MakeDate(MakeDay(FullYear(year), monthIndex, date), MakeTime(hours, minutes, seconds, millis))
    {
      time := MakeDate(MakeDay(FullYear(year), monthIndex, date), MakeTime(hours, minutes, seconds, millis));
    }

    /** `new Date(other)`: a separate date at the same instant. */
    constructor Copy(other: DateTime)
      ensures time == other.time
    {
      time := other.time;
    }

    /** `new Date()` where the clock reads `clock`. */
    constructor Now(clock: int)
      ensures time == clock
    {
      time := clock;
    }

    function Day(): int
      reads this
    {
      DayOfTime(time)
    }

    function GetFullYear(): int
      reads this
    {
      YearOf(Day())
    }

    function GetMonth(): (r: int)
      reads this
      ensures 0 <= r < 12
    {
      MonthOf(Day())
    }

    function GetDate(): (r: int)
      reads this
      ensures 1 <= r <= DaysInMonth(GetFullYear(), GetMonth())
    {
      DateOf(Day())
    }

    function GetDay(): (r: int)
      reads this
      ensures 0 <= r < 7
    {
      Weekday(Day())
    }

    /** `setDate(date)`: the same time of day on day `date` of the current month and year,
        carrying into other months when `date` falls outside this one. */
    method SetDate(date: int)
      modifies this
      ensures time == MakeDate(MakeDay(old(GetFullYear()), old(GetMonth()), date), TimeWithinDay(old(time)))
      ensures Day() == old(Day()) - old(GetDate()) + date
      ensures TimeWithinDay(time) == TimeWithinDay(old(time))
    {
      var day, dateNow := Day(), GetDate();
      var n := MakeDay(GetFullYear(), GetMonth(), date);
      FieldsRebuildDay(day);
      MakeDayShift(GetFullYear(), GetMonth(), dateNow, date);
      assert n == day - dateNow + date;
      DayOfMakeDate(n, TimeWithinDay(time));
      time := MakeDate(n, TimeWithinDay(time));
    }

    /** `setHours(hours, minutes, seconds, millis)`: the same day at another time. */
    method SetHours(hours: int, minutes: int, seconds: int, millis: int)
      modifies this
      ensures time == MakeDate(old(Day()), MakeTime(hours, minutes, seconds, millis))
    {
      time := MakeDate(Day(), MakeTime(hours, minutes, seconds, millis));
    }
  }
}
