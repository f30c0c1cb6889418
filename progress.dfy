/** The goal-period progress view (`activity-stats.tsx`): the bounds of the current day, week,
    month or year, the logs that count toward a quest in that period, the amount logged, the
    split of the active tab's quests into completed and current, and the percentage bar. */
module Progress {
  import opened Wrappers
  import opened Seqs
  import opened Calendar
  import opened Types
  import opened DateUtil

  // ---- period bounds ----

  /** The first and last day of the period named `tab` that holds day `n`, as the `Date`
      constructor computes them from the fields of `n`; any other name means the day itself. */
  function PeriodDays(tab: string, n: int): (int, int) {
    if tab == "week" then WeekDays(n)
    else if tab == "month" then MonthDays(n)
    else if tab == "year" then YearDays(n)
    else DayDays(n)
  }

  /** `startOfWeek(now)` to `endOfWeek(now)`: Sunday to Saturday. */
  function WeekDays(n: int): (int, int) {
    (n - Weekday(n), n - Weekday(n) + 6)
  }

  /** `new Date(y, m, 1)` to `new Date(y, m + 1, 0)`. */
  function MonthDays(n: int): (int, int) {
    (MakeDay(FullYear(YearOf(n)), MonthOf(n), 1), MakeDay(FullYear(YearOf(n)), MonthOf(n) + 1, 0))
  }

  /** `new Date(y, 0, 1)` to `new Date(y, 11, 31)`. */
  function YearDays(n: int): (int, int) {
    (MakeDay(FullYear(YearOf(n)), 0, 1), MakeDay(FullYear(YearOf(n)), 11, 31))
  }

  /** `new Date(y, m, d)` for both ends. */
  function DayDays(n: int): (int, int) {
    (MakeDay(FullYear(YearOf(n)), MonthOf(n), DateOf(n)), MakeDay(FullYear(YearOf(n)), MonthOf(n), DateOf(n)))
  }

  /** `getCurrentPeriodBounds(tab)` as time values, when the clock reads `now`: midnight of the
      first day to the last millisecond of the last day. */
  function PeriodBounds(tab: string, now: int): (int, int) {
    var (first, last) := PeriodDays(tab, DayOfTime(now));
    (MakeDate(first, 0), MakeDate(last, MsPerDay - 1))
  }

  /** `startOfWeek(d)`: a new date at midnight of the Sunday on or before `d`. */
  method StartOfWeek(d: DateTime) returns (date: DateTime)
    ensures fresh(date)
    ensures date.time == MakeDate(d.Day() - Weekday(d.Day()), 0)
  {
    date := new DateTime.Copy(d);
    var day := date.GetDay();
    date.SetDate(date.GetDate() - day);
    date.SetHours(0, 0, 0, 0);
  }

  /** `endOfWeek(d)`: a new date at the last millisecond of the Saturday after that Sunday. */
  method EndOfWeek(d: DateTime) returns (date: DateTime)
    ensures fresh(date)
    ensures date.time == MakeDate(d.Day() - Weekday(d.Day()) + 6, MsPerDay - 1)
  {
    date := StartOfWeek(d);
    ghost var sunday := d.Day() - Weekday(d.Day());
    DayOfMakeDate(sunday, 0);
    assert date.Day() == sunday;
    date.SetDate(date.GetDate() + 6);
    assert date.Day() == sunday + 6;
    date.SetHours(23, 59, 59, 999);
    assert MakeTime(23, 59, 59, 999) == MsPerDay - 1;
  }

  /** `getCurrentPeriodBounds(tab)` with `new Date()` reading `clock`. */
  method GetCurrentPeriodBounds(tab: string, clock: int) returns (start: DateTime, end: DateTime)
    ensures fresh(start) && fresh(end)
    ensures (start.time, end.time) == PeriodBounds(tab, clock)
  {
    var now := new DateTime.Now(clock);
    var days: (int, int);
    if tab == "week" {
      start := StartOfWeek(now);
      end := EndOfWeek(now);
      days := WeekDays(now.Day());
    } else if tab == "month" {
      start, end := MonthBounds(now);
      days := MonthDays(now.Day());
    } else if tab == "year" {
      start, end := YearBounds(now);
      days := YearDays(now.Day());
    } else {
      start, end := DayBounds(now);
      days := DayDays(now.Day());
    }
    assert days == PeriodDays(tab, DayOfTime(clock));
    assert (start.time, end.time) == (MakeDate(days.0, 0), MakeDate(days.1, MsPerDay - 1));
  }

  /** The `'day'` (and default) case: from the fields of `now`, midnight to 23:59:59.999. */
  method DayBounds(now: DateTime) returns (start: DateTime, end: DateTime)
    ensures fresh(start) && fresh(end)
    ensures start.time == MakeDate(DayDays(now.Day()).0, 0)
    ensures end.time == MakeDate(DayDays(now.Day()).1, MsPerDay - 1)
  {
    var y, m, d := now.GetFullYear(), now.GetMonth(), now.GetDate();
    start := new DateTime(y, m, d, 0, 0, 0, 0);
    end := new DateTime(y, m, d, 23, 59, 59, 999);
  }

  /** The `'month'` case: the 1st of the month to day 0 of the next one. */
  method MonthBounds(now: DateTime) returns (start: DateTime, end: DateTime)
    ensures fresh(start) && fresh(end)
    ensures start.time == MakeDate(MonthDays(now.Day()).0, 0)
    ensures end.time == MakeDate(MonthDays(now.Day()).1, MsPerDay - 1)
  {
    var y, m := now.GetFullYear(), now.GetMonth();
    ghost var first, last := MakeDay(FullYear(y), m, 1), MakeDay(FullYear(y), m + 1, 0);
    MonthDaysAre(now.Day(), y, m);
    assert MakeTime(0, 0, 0, 0) == 0 && MakeTime(23, 59, 59, 999) == MsPerDay - 1;
    start := new DateTime(y, m, 1, 0, 0, 0, 0);
    assert start.time == MakeDate(first, 0);
    end := new DateTime(y, m + 1, 0, 23, 59, 59, 999);
    assert end.time == MakeDate(last, MsPerDay - 1);
  }

  lemma MonthDaysAre(n: int, y: int, m: int)
    requires y == YearOf(n) && m == MonthOf(n)
    ensures MonthDays(n) == (MakeDay(FullYear(y), m, 1), MakeDay(FullYear(y), m + 1, 0))
  {
  }

  /** The `'year'` case: 1 January to 31 December. */
  method YearBounds(now: DateTime) returns (start: DateTime, end: DateTime)
    ensures fresh(start) && fresh(end)
    ensures start.time == MakeDate(YearDays(now.Day()).0, 0)
    ensures end.time == MakeDate(YearDays(now.Day()).1, MsPerDay - 1)
  {
    var y := now.GetFullYear();
    start := new DateTime(y, 0, 1, 0, 0, 0, 0);
    end := new DateTime(y, 11, 31, 23, 59, 59, 999);
  }

  /** The week runs from the Sunday on or before day `n` to the Saturday after it: seven days
      that hold `n`. */
  lemma WeekPeriod(n: int)
    ensures var (first, last) := PeriodDays("week", n);
      && Weekday(first) == 0 && Weekday(last) == 6
      && first <= n <= last && last - first + 1 == 7
  {
    var w := Weekday(n);
    assert PeriodDays("week", n) == WeekDays(n) == (n - w, n - w + 6);
    assert n + 6 == 7 * ((n + 6) / 7) + w;
    assert Weekday(n - w) == 0;
  }

  /** The month runs from its 1st to its last day, 28 to 31 days, February having 29 exactly in
      leap years (for years from 100 on, which the `Date` constructor takes literally). */
  lemma MonthPeriod(n: int)
    requires !(0 <= YearOf(n) <= 99)
    ensures var (first, last) := PeriodDays("month", n);
      && first <= n <= last
      && YearOf(first) == YearOf(n) && MonthOf(first) == MonthOf(n) && DateOf(first) == 1
      && YearOf(last) == YearOf(n) && MonthOf(last) == MonthOf(n)
      && DateOf(last) == last - first + 1 == DaysInMonth(YearOf(n), MonthOf(n))
      && 28 <= last - first + 1 <= 31
      && (MonthOf(n) == 1 ==> (last - first + 1 == 29 <==> IsLeapYear(YearOf(n))))
  {
    var y, m := YearOf(n), MonthOf(n);
    var first, last := MakeDay(y, m, 1), MakeDay(y, m + 1, 0);
    MonthDaysAre(n, y, m);
    assert PeriodDays("month", n) == (first, last);
    MonthSpan(n, y, m);
    MonthFields(y, m, DaysInMonth(y, m));
    MonthLengthBounds(y, m);
  }

  lemma MonthLengthBounds(y: int, m: int)
    requires 0 <= m < 12
    ensures 28 <= DaysInMonth(y, m) <= 31
    ensures m == 1 ==> (DaysInMonth(y, m) == 29 <==> IsLeapYear(y))
  {
  }

  lemma MonthSpan(n: int, y: int, m: int)
    requires y == YearOf(n) && m == MonthOf(n)
    ensures MakeDay(y, m, 1) <= n <= MakeDay(y, m + 1, 0)
    ensures MakeDay(y, m + 1, 0) == MakeDay(y, m, DaysInMonth(y, m))
    ensures MakeDay(y, m + 1, 0) - MakeDay(y, m, 1) + 1 == DaysInMonth(y, m)
  {
    var d, len := DateOf(n), DaysInMonth(y, m);
    FieldsRebuildDay(n);
    MakeDayShift(y, m, d, 1);
    MonthEnd(y, m);
    MakeDayShift(y, m, 1, len);
  }

  lemma MonthFields(y: int, m: int, len: int)
    requires 0 <= m < 12 && len == DaysInMonth(y, m)
    ensures YearOf(MakeDay(y, m, 1)) == y && MonthOf(MakeDay(y, m, 1)) == m && DateOf(MakeDay(y, m, 1)) == 1
    ensures YearOf(MakeDay(y, m, len)) == y && MonthOf(MakeDay(y, m, len)) == m && DateOf(MakeDay(y, m, len)) == len
  {
    MakeDayFields(y, m, 1);
    MakeDayFields(y, m, len);
  }

  /** The year runs from 1 January to 31 December, all its days (years from 100 on). */
  lemma YearPeriod(n: int)
    requires !(0 <= YearOf(n) <= 99)
    ensures var (first, last) := PeriodDays("year", n);
      && first <= n <= last && last - first + 1 == DaysInYear(YearOf(n))
      && YearOf(first) == YearOf(n) && MonthOf(first) == 0 && DateOf(first) == 1
      && YearOf(last) == YearOf(n) && MonthOf(last) == 11 && DateOf(last) == 31
  {
    var y := YearOf(n);
    assert PeriodDays("year", n) == YearDays(n) == (MakeDay(y, 0, 1), MakeDay(y, 11, 31));
    YearSpan(n, y);
    YearFields(y);
  }

  /** 1 January starts the year of day `n` and 31 December ends it. */
  lemma YearSpan(n: int, y: int)
    requires y == YearOf(n)
    ensures MakeDay(y, 0, 1) <= n <= MakeDay(y, 11, 31)
    ensures MakeDay(y, 11, 31) - MakeDay(y, 0, 1) + 1 == DaysInYear(y)
  {
    assert 11 / 12 == 0 && 11 % 12 == 11;
    var start := DaysBeforeYear(y);
    assert MakeDay(y, 0, 1) == start;
    assert MakeDay(y, 11, 31) == start + DaysBeforeMonth(y, 11) + 30;
    MonthsFillYear(y, 11);
    YearLength(y);
  }

  lemma YearFields(y: int)
    ensures YearOf(MakeDay(y, 0, 1)) == y && MonthOf(MakeDay(y, 0, 1)) == 0 && DateOf(MakeDay(y, 0, 1)) == 1
    ensures YearOf(MakeDay(y, 11, 31)) == y && MonthOf(MakeDay(y, 11, 31)) == 11 && DateOf(MakeDay(y, 11, 31)) == 31
  {
    MakeDayFields(y, 0, 1);
    MakeDayFields(y, 11, 31);
  }

  /** The day tab, and any name that is not one of the other three, give the day itself. */
  lemma DayPeriod(tab: string, n: int)
    requires tab != "week" && tab != "month" && tab != "year"
    requires !(0 <= YearOf(n) <= 99)
    ensures PeriodDays(tab, n) == (n, n)
  {
    FieldsRebuildDay(n);
  }

  /** Whatever the tab, the current period holds the current instant. */
  lemma BoundsHoldNow(tab: string, now: int)
    requires !(0 <= YearOf(DayOfTime(now)) <= 99)
    ensures PeriodBounds(tab, now).0 <= now <= PeriodBounds(tab, now).1
  {
    var n := DayOfTime(now);
    if tab == "week" {
      WeekPeriod(n);
    } else if tab == "month" {
      MonthPeriod(n);
    } else if tab == "year" {
      YearPeriod(n);
    } else {
      DayPeriod(tab, n);
    }
    TimeSplits(now);
  }

  // ---- logs of the period ----

  /** The filter's test: the day that starts at `logStart` (and ends 86400000 - 1 ms later)
      overlaps the period [start, end]. */
  predicate Overlaps(logStart: int, start: int, end: int) {
    logStart <= end && logStart + MsPerDay - 1 >= start
  }

  /** For a log read as midnight of day `day`, overlapping the bounds of a period means lying
      between its first and last day. */
  lemma OverlapIsDayInPeriod(day: int, first: int, last: int)
    ensures Overlaps(MakeDate(day, 0), MakeDate(first, 0), MakeDate(last, MsPerDay - 1)) <==> first <= day <= last
  {
  }

  /** The logs the view reads all carry a `date` (`parseLocalDate(undefined)` throws). */
  predicate DatesPresent(logs: seq<ActivityLog>) {
    forall i | 0 <= i < |logs| :: logs[i].date.Some?
  }

  /** Whether `log` counts toward quest `id` in the period [start, end]: its `date`, read by
      `parseLocalDate`, overlaps the period, and it belongs to `id`. A date that is not valid
      gives NaN, which no comparison accepts. */
  predicate CountsToward(log: ActivityLog, id: string, start: int, end: int) {
    && log.date.Some?
    && ParseLocalDate(log.date.value).Some?
    && Overlaps(ParseLocalDate(log.date.value).value, start, end)
    && log.activityId == id
  }

  /** A log with a valid date counts toward quest `id` in the current period exactly when it
      belongs to `id` and its day lies between the period's first and last day. */
  lemma CountsIffDayInPeriod(log: ActivityLog, id: string, tab: string, now: int)
    requires log.date.Some? && ParseLocalDate(log.date.value).Some?
    ensures var (first, last) := PeriodDays(tab, DayOfTime(now));
      var day := DayOfTime(ParseLocalDate(log.date.value).value);
      (CountsToward(log, id, PeriodBounds(tab, now).0, PeriodBounds(tab, now).1)
       <==> log.activityId == id && first <= day <= last)
  {
    var t := ParseLocalDate(log.date.value).value;
    TimeSplits(t);
    var (first, last) := PeriodDays(tab, DayOfTime(now));
    OverlapIsDayInPeriod(DayOfTime(t), first, last);
  }

  /** `periodLogs`: the logs counting toward quest `id`, in their order. */
  function PeriodLogs(logs: seq<ActivityLog>, id: string, start: int, end: int): (r: seq<ActivityLog>)
    ensures forall i | 0 <= i < |r| :: r[i].activityId == id && CountsToward(r[i], id, start, end) && r[i] in logs
    ensures forall i | 0 <= i < |logs| && CountsToward(logs[i], id, start, end) :: logs[i] in r
    ensures IsSubsequence(r, logs)
    ensures forall log | CountsToward(log, id, start, end) :: multiset(r)[log] == multiset(logs)[log]
  {
    FilterIsSubsequence(logs, (log: ActivityLog) => CountsToward(log, id, start, end));
    FilterMultiplicity(logs, (log: ActivityLog) => CountsToward(log, id, start, end));
    Filter(logs, (log: ActivityLog) => CountsToward(log, id, start, end))
  }

  /** `logs.reduce((sum, log) => sum + (log.hours ?? 0), 0)`. */
  function SumHours(logs: seq<ActivityLog>): real {
    if logs == [] then 0.0 else SumHours(logs[..|logs| - 1]) + logs[|logs| - 1].hours.GetOr(0.0)
  }

  /** The hours of two lists of logs add up. */
  lemma {:induction false} SumHoursAppend(a: seq<ActivityLog>, b: seq<ActivityLog>)
    ensures SumHours(a + b) == SumHours(a) + SumHours(b)
  {
    if b != [] {
      var b' := b[..|b| - 1];
      SumHoursAppend(a, b');
      assert (a + b)[..|a + b| - 1] == a + b';
    } else {
      assert a + b == a;
    }
  }

  /** With no negative hours the sum is not negative. */
  lemma {:induction false} SumHoursNonNegative(logs: seq<ActivityLog>)
    requires forall i | 0 <= i < |logs| :: logs[i].hours.GetOr(0.0) >= 0.0
    ensures SumHours(logs) >= 0.0
  {
    if logs != [] {
      SumHoursNonNegative(logs[..|logs| - 1]);
    }
  }

  /** `logged`: hours summed for an hours goal, logs counted for any other unit. */
  function Logged(goal: Goal, periodLogs: seq<ActivityLog>): real {
    if goal.unit == Hours then SumHours(periodLogs) else |periodLogs| as real
  }

  /** One more log adds its hours (0 when missing) to an hours goal and one to any other. */
  lemma LoggedGrows(goal: Goal, periodLogs: seq<ActivityLog>, log: ActivityLog)
    ensures Logged(goal, periodLogs + [log])
      == Logged(goal, periodLogs) + (if goal.unit == Hours then log.hours.GetOr(0.0) else 1.0)
  {
    assert (periodLogs + [log])[..|periodLogs|] == periodLogs;
  }

  // ---- classification ----

  /** A quest shown under tab `tab`: its first goal exists and has that time range. */
  predicate InTab(a: Activity, tab: string) {
    |a.goals| > 0 && RangeName(a.goals[0].timeRange) == tab
  }

  /** `questsInTab`, in the order of the list shown. */
  function QuestsInTab(display: seq<Activity>, tab: string): (r: seq<Activity>)
    ensures forall i | 0 <= i < |r| :: InTab(r[i], tab) && r[i] in display
    ensures forall i | 0 <= i < |display| && InTab(display[i], tab) :: display[i] in r
    ensures IsSubsequence(r, display)
    ensures forall a | InTab(a, tab) :: multiset(r)[a] == multiset(display)[a]
  {
    FilterIsSubsequence(display, (a: Activity) => InTab(a, tab));
    FilterMultiplicity(display, (a: Activity) => InTab(a, tab));
    Filter(display, (a: Activity) => InTab(a, tab))
  }

  /** Whether a quest's logged amount in [start, end] reaches its first goal's target. */
  predicate Done(a: Activity, logs: seq<ActivityLog>, start: int, end: int) {
    |a.goals| > 0 && Logged(a.goals[0], PeriodLogs(logs, a.id, start, end)) >= a.goals[0].amount
  }

  function Completed(quests: seq<Activity>, logs: seq<ActivityLog>, start: int, end: int): seq<Activity> {
    Filter(quests, (a: Activity) => Done(a, logs, start, end))
  }

  function Current(quests: seq<Activity>, logs: seq<ActivityLog>, start: int, end: int): seq<Activity> {
    Filter(quests, (a: Activity) => !Done(a, logs, start, end))
  }

  /** The loop that splits the quests of the active tab: each one is pushed onto `completed`
      when its logged amount reaches the target, onto `current` otherwise. The logs are only
      read when some quest is in the tab, and then each must carry a date. */
  method Classify(display: seq<Activity>, logs: seq<ActivityLog>, tab: string, clock: int)
    returns (completed: seq<Activity>, current: seq<Activity>)
    requires QuestsInTab(display, tab) != [] ==> DatesPresent(logs)
    ensures completed == Completed(QuestsInTab(display, tab), logs, PeriodBounds(tab, clock).0, PeriodBounds(tab, clock).1)
    ensures current == Current(QuestsInTab(display, tab), logs, PeriodBounds(tab, clock).0, PeriodBounds(tab, clock).1)
  {
    var startDate, endDate := GetCurrentPeriodBounds(tab, clock);
    var start, end := startDate.time, endDate.time;
    var questsInTab := QuestsInTab(display, tab);
    completed, current := [], [];
    for k := 0 to |questsInTab|
      invariant completed == Completed(questsInTab[..k], logs, start, end)
      invariant current == Current(questsInTab[..k], logs, start, end)
    {
      var activity := questsInTab[k];
      var goal := activity.goals[0];
      var periodLogs := PeriodLogs(logs, activity.id, start, end);
      var logged := Logged(goal, periodLogs);
      ClassifyStep(questsInTab, k, logs, start, end);
      if logged >= goal.amount {
        completed := completed + [activity];
      } else {
        current := current + [activity];
      }
    }
    assert questsInTab[..|questsInTab|] == questsInTab;
  }

  /** One more quest joins exactly one of the two lists, at its end: `completed` when its
      logged amount reaches its first goal's target, `current` otherwise. */
  lemma ClassifyStep(qs: seq<Activity>, k: nat, logs: seq<ActivityLog>, start: int, end: int)
    requires k < |qs| && |qs[k].goals| > 0
    ensures var done := Logged(qs[k].goals[0], PeriodLogs(logs, qs[k].id, start, end)) >= qs[k].goals[0].amount;
      && Completed(qs[..k + 1], logs, start, end) == Completed(qs[..k], logs, start, end) + (if done then [qs[k]] else [])
      && Current(qs[..k + 1], logs, start, end) == Current(qs[..k], logs, start, end) + (if done then [] else [qs[k]])
  {
    assert qs[..k + 1] == qs[..k] + [qs[k]];
    FilterSnoc(qs[..k], qs[k], (a: Activity) => Done(a, logs, start, end));
    FilterSnoc(qs[..k], qs[k], (a: Activity) => !Done(a, logs, start, end));
  }

  /** Every quest of the tab lands in exactly one of the two lists; both keep the tab's order;
      a quest is completed exactly when its logged amount reaches its target. */
  lemma ClassificationPartitions(quests: seq<Activity>, logs: seq<ActivityLog>, start: int, end: int)
    ensures multiset(Completed(quests, logs, start, end)) + multiset(Current(quests, logs, start, end)) == multiset(quests)
    ensures IsSubsequence(Completed(quests, logs, start, end), quests)
    ensures IsSubsequence(Current(quests, logs, start, end), quests)
    ensures forall i | 0 <= i < |quests| ::
      (quests[i] in Completed(quests, logs, start, end) <==> Done(quests[i], logs, start, end))
    ensures forall i | 0 <= i < |quests| ::
      (quests[i] in Current(quests, logs, start, end) <==> !Done(quests[i], logs, start, end))
  {
    FilterSplits(quests, (a: Activity) => Done(a, logs, start, end), (a: Activity) => !Done(a, logs, start, end));
    FilterIsSubsequence(quests, (a: Activity) => Done(a, logs, start, end));
    FilterIsSubsequence(quests, (a: Activity) => !Done(a, logs, start, end));
  }

  // ---- progress bar ----

  /** `Math.min(100, (logged / target) * 100)` when the target is positive, 0 otherwise. */
  function Percent(logged: real, target: real): (p: real)
    ensures target <= 0.0 ==> p == 0.0
    ensures target > 0.0 ==> p <= 100.0 && (p == 100.0 <==> logged >= target)
    ensures target > 0.0 && logged >= 0.0 ==> p >= 0.0
    ensures target > 0.0 && logged < target ==> p == logged / target * 100.0
  {
    if target > 0.0 then
      var ratio := logged / target * 100.0;
      if ratio < 100.0 then ratio else 100.0
    else 0.0
  }

  datatype ProgressInfo = ProgressInfo(logged: real, target: real, unit: string, percent: real)

  /** `getProgress(activity)`: the amount logged toward the quest's first goal in the current
      period, the target, the unit label and the clamped percentage. */
  function GetProgress(activity: Activity, logs: seq<ActivityLog>, tab: string, now: int): (p: ProgressInfo)
    requires |activity.goals| > 0
    requires DatesPresent(logs)
    ensures p.target == activity.goals[0].amount
    ensures p.unit == "hrs" <==> activity.goals[0].unit == Hours
    ensures p.unit == "hrs" || p.unit == "sessions"
    ensures p.logged == Logged(activity.goals[0], PeriodLogs(logs, activity.id, PeriodBounds(tab, now).0, PeriodBounds(tab, now).1))
    ensures p.percent == Percent(p.logged, p.target)
  {
    var goal := activity.goals[0];
    var (start, end) := PeriodBounds(tab, now);
    var logged := Logged(goal, PeriodLogs(logs, activity.id, start, end));
    ProgressInfo(logged, goal.amount, if goal.unit == Hours then "hrs" else "sessions", Percent(logged, goal.amount))
  }

  /** The bar and the split agree: a quest of the tab with a positive target shows 100% exactly
      when it is listed as completed. */
  lemma ProgressMatchesClassification(display: seq<Activity>, logs: seq<ActivityLog>, tab: string, now: int, i: int)
    requires DatesPresent(logs)
    requires 0 <= i < |QuestsInTab(display, tab)|
    requires QuestsInTab(display, tab)[i].goals[0].amount > 0.0
    ensures var a := QuestsInTab(display, tab)[i];
      (a in Completed(QuestsInTab(display, tab), logs, PeriodBounds(tab, now).0, PeriodBounds(tab, now).1)
       <==> GetProgress(a, logs, tab, now).percent == 100.0)
  {
    var quests := QuestsInTab(display, tab);
    var (start, end) := PeriodBounds(tab, now);
    ClassificationPartitions(quests, logs, start, end);
  }

  // ---- labels and the kind tab ----

  /** The unit word of a goal label: singular exactly when the amount is 1. */
  function UnitLabel(goal: Goal): (r: string)
    ensures r == "hour" || r == "hours" || r == "session" || r == "sessions"
    ensures (r == "hour" || r == "session") <==> goal.amount == 1.0
    ensures (r == "hour" || r == "hours") <==> goal.unit == Hours
  {
    if goal.unit == Hours then (if goal.amount == 1.0 then "hour" else "hours")
    else if goal.amount == 1.0 then "session" else "sessions"
  }

  /** `formatGoalLabel(goal)`, with `${goal.amount}` written by the runtime. */
  function FormatGoalLabel(goal: Goal, rt: Runtime): string {
    rt.numberText(goal.amount) + " " + UnitLabel(goal) + " / " + RangeName(goal.timeRange)
  }

  /** `displayActivities`: the campaigns on the campaign tab, the side quests on the other,
      each as often as in the list and in its order. */
  function DisplayActivities(activities: seq<Activity>, kindTab: string): (r: seq<Activity>)
    ensures IsSubsequence(r, activities)
    ensures forall a | a in r :: IsCampaign(a) == (kindTab == "campaignObjectives")
    ensures forall a | IsCampaign(a) == (kindTab == "campaignObjectives") :: multiset(r)[a] == multiset(activities)[a]
  {
    KindPartition(activities);
    FilterMultiplicity(activities, IsCampaign);
    FilterMultiplicity(activities, IsSideQuest);
    if kindTab == "campaignObjectives" then Campaigns(activities) else SideQuests(activities)
  }
}
