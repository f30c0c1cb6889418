/** The older statistics view (`activity-stats.jsx`): the window of the chosen time frame, the
    hours per date and quest, the chart points, the hours per quest name, their total, and the
    breakdown sorted by hours with each share of the total. An hours value that is missing
    (`undefined`) makes JavaScript's sums NaN, written None here. */
module LegacyStats {
  import opened Wrappers
  import opened Seqs
  import opened Sorting
  import opened Calendar
  import opened Types
  import opened Progress
  import opened RecentLogs

  // ---- the window ----

  /** The first day of the window for `timeFrame`, from the fields of day `n`: today, six days
      before today for `'week'`, the 1st of the month, 1 January; any other name means today. */
  function WindowStartDay(timeFrame: string, n: int): int {
    if timeFrame == "week" then DayDays(n).0 - 6
    else if timeFrame == "month" then MonthDays(n).0
    else if timeFrame == "year" then YearDays(n).0
    else DayDays(n).0
  }

  /** `startDate`, built from `now` as the `switch` builds it. */
  method WindowStart(timeFrame: string, now: DateTime) returns (startDate: DateTime)
    ensures fresh(startDate)
    ensures startDate.time == MakeDate(WindowStartDay(timeFrame, now.Day()), 0)
  {
    ghost var n := now.Day();
    var startOfToday := StartOfToday(now);
    if timeFrame == "week" {
      DayOfMakeDate(DayDays(n).0, 0);
      startDate := SixDaysBefore(startOfToday);
      assert startDate.time == MakeDate(DayDays(n).0 - 6, 0);
    } else if timeFrame == "month" {
      startDate := FirstOfMonth(now);
      assert startDate.time == MakeDate(MonthDays(n).0, 0);
    } else if timeFrame == "year" {
      startDate := FirstOfYear(now);
      assert startDate.time == MakeDate(YearDays(n).0, 0);
    } else {
      startDate := startOfToday;
      assert startDate.time == MakeDate(DayDays(n).0, 0);
    }
  }

  /** `new Date(now.getFullYear(), now.getMonth(), now.getDate())`. */
  method StartOfToday(now: DateTime) returns (date: DateTime)
    ensures fresh(date)
    ensures date.time == MakeDate(DayDays(now.Day()).0, 0)
  {
    assert MakeTime(0, 0, 0, 0) == 0;
    date := new DateTime(now.GetFullYear(), now.GetMonth(), now.GetDate(), 0, 0, 0, 0);
  }

  /** A copy of `start` moved back six days with `setDate(getDate() - 6)`. */
  method SixDaysBefore(start: DateTime) returns (date: DateTime)
    requires TimeWithinDay(start.time) == 0
    ensures fresh(date)
    ensures date.time == MakeDate(start.Day() - 6, 0)
  {
    date := new DateTime.Copy(start);
    date.SetDate(date.GetDate() - 6);
    TimeSplits(date.time);
  }

  /** `new Date(now.getFullYear(), now.getMonth(), 1)`. */
  method FirstOfMonth(now: DateTime) returns (date: DateTime)
    ensures fresh(date)
    ensures date.time == MakeDate(MonthDays(now.Day()).0, 0)
  {
    var y, m := now.GetFullYear(), now.GetMonth();
    assert MonthDays(now.Day()).0 == MakeDay(FullYear(y), m, 1);
    assert MakeTime(0, 0, 0, 0) == 0;
    date := new DateTime(y, m, 1, 0, 0, 0, 0);
  }

  /** `new Date(now.getFullYear(), 0, 1)`. */
  method FirstOfYear(now: DateTime) returns (date: DateTime)
    ensures fresh(date)
    ensures date.time == MakeDate(YearDays(now.Day()).0, 0)
  {
    var y := now.GetFullYear();
    assert YearDays(now.Day()).0 == MakeDay(FullYear(y), 0, 1);
    assert MakeTime(0, 0, 0, 0) == 0;
    date := new DateTime(y, 0, 1, 0, 0, 0, 0);
  }

  /** The window ends today and starts on the 1st of the month, on 1 January, six days back or
      today, for years from 100 on. */
  lemma WindowHoldsToday(timeFrame: string, n: int)
    requires !(0 <= YearOf(n) <= 99)
    ensures WindowStartDay(timeFrame, n) <= n
    ensures timeFrame == "week" ==> WindowStartDay(timeFrame, n) == n - 6
    ensures timeFrame == "month" ==>
      var s := WindowStartDay(timeFrame, n);
      YearOf(s) == YearOf(n) && MonthOf(s) == MonthOf(n) && DateOf(s) == 1
    ensures timeFrame == "year" ==>
      var s := WindowStartDay(timeFrame, n);
      YearOf(s) == YearOf(n) && MonthOf(s) == 0 && DateOf(s) == 1
    ensures timeFrame != "week" && timeFrame != "month" && timeFrame != "year" ==> WindowStartDay(timeFrame, n) == n
  {
    DayPeriod("day", n);
    if timeFrame == "month" {
      MonthPeriod(n);
    } else if timeFrame == "year" {
      YearPeriod(n);
    }
  }

  /** The filter's test: `new Date(log.date)` lies between `start` and `now`, both included; NaN
      fails every comparison. */
  predicate InWindow(log: ActivityLog, rt: Runtime, start: int, now: int) {
    LogTime(log, rt).Some? && start <= LogTime(log, rt).value <= now
  }

  /** `filteredLogs`. */
  function WindowLogs(logs: seq<ActivityLog>, rt: Runtime, start: int, now: int): (r: seq<ActivityLog>)
    ensures forall i | 0 <= i < |r| :: r[i] in logs && InWindow(r[i], rt, start, now)
    ensures forall i | 0 <= i < |logs| && InWindow(logs[i], rt, start, now) :: logs[i] in r
    ensures IsSubsequence(r, logs)
    ensures forall log | InWindow(log, rt, start, now) :: multiset(r)[log] == multiset(logs)[log]
  {
    FilterIsSubsequence(logs, (log: ActivityLog) => InWindow(log, rt, start, now));
    FilterMultiplicity(logs, (log: ActivityLog) => InWindow(log, rt, start, now));
    Filter(logs, (log: ActivityLog) => InWindow(log, rt, start, now))
  }

  // ---- hours per date and quest ----

  /** One date's cells: quest id to hours, in insertion order. */
  type Cells = seq<(string, Option<real>)>

  /** `groupedByDate`: date to cells, in insertion order. */
  type Grid = seq<(string, Cells)>

  /** The property key of `log.date`. */
  function DateKey(log: ActivityLog): string {
    log.date.GetOr("undefined")
  }

  /** `if (!cell) cell = 0; cell += log.hours`: a missing, zero or NaN cell starts from 0, and a
      missing hours value makes the cell NaN. */
  function AddHours(cell: Option<Option<real>>, hours: Option<real>): (r: Option<real>)
    ensures hours.None? <==> r.None?
  {
    var base := if cell.Some? && cell.value.Some? then cell.value.value else 0.0;
    if hours.Some? then Some(base + hours.value) else None
  }

  /** One step of the `forEach`: the cell of the log's date and quest, created when missing. */
  function AddToGrid(grid: Grid, log: ActivityLog): Grid {
    var row := Lookup(grid, DateKey(log)).GetOr([]);
    Put(grid, DateKey(log), Put(row, log.activityId, AddHours(Lookup(row, log.activityId), log.hours)))
  }

  /** The grid after the `forEach` over `logs`. */
  function Grouped(logs: seq<ActivityLog>): Grid {
    if logs == [] then [] else AddToGrid(Grouped(logs[..|logs| - 1]), logs[|logs| - 1])
  }

  /** The `forEach` that fills `groupedByDate`. */
  method GroupByDate(filtered: seq<ActivityLog>) returns (grouped: Grid)
    ensures grouped == Grouped(filtered)
  {
    grouped := [];
    for i := 0 to |filtered|
      invariant grouped == Grouped(filtered[..i])
    {
      var log := filtered[i];
      var dateKey := DateKey(log);
      var row := Lookup(grouped, dateKey).GetOr([]);
      var cell := Lookup(row, log.activityId);
      row := Put(row, log.activityId, AddHours(cell, log.hours));
      grouped := Put(grouped, dateKey, row);
      assert filtered[..i + 1][..i] == filtered[..i];
    }
    assert filtered[..|filtered|] == filtered;
  }

  /** `groupedByDate[d][a]`, None when either key is missing. */
  function CellOf(grid: Grid, d: string, a: string): Option<Option<real>> {
    match Lookup(grid, d)
    case None => None
    case Some(row) => Lookup(row, a)
  }

  /** One step changes the log's own cell and no other. */
  lemma CellOfAdd(grid: Grid, log: ActivityLog, d: string, a: string)
    ensures CellOf(AddToGrid(grid, log), d, a)
      == if DateKey(log) == d && log.activityId == a then Some(AddHours(CellOf(grid, d, a), log.hours))
         else CellOf(grid, d, a)
  {
    var row := Lookup(grid, DateKey(log)).GetOr([]);
    var v := AddHours(Lookup(row, log.activityId), log.hours);
    PutLookup(grid, DateKey(log), Put(row, log.activityId, v), d);
    PutLookup(row, log.activityId, v, a);
  }

  /** The logs of date `d` and quest `a`. */
  function LogsAt(logs: seq<ActivityLog>, d: string, a: string): seq<ActivityLog> {
    Filter(logs, (log: ActivityLog) => DateKey(log) == d && log.activityId == a)
  }

  /** With every hours value present, `groupedByDate[d][a]` is the sum of the hours of the logs
      of date `d` and quest `a`, and is missing when there are none. */
  lemma {:induction false} GroupedSums(logs: seq<ActivityLog>, d: string, a: string)
    requires forall i | 0 <= i < |logs| :: logs[i].hours.Some?
    ensures CellOf(Grouped(logs), d, a)
      == if LogsAt(logs, d, a) == [] then None else Some(Some(SumHours(LogsAt(logs, d, a))))
  {
    if logs != [] {
      var init, x := logs[..|logs| - 1], logs[|logs| - 1];
      assert init + [x] == logs;
      GroupedSums(init, d, a);
      var g := Grouped(init);
      assert Grouped(logs) == AddToGrid(g, x);
      CellOfAdd(g, x, d, a);
      LogsAtStep(init, x, d, a);
      if DateKey(x) == d && x.activityId == a {
        CellGrows(CellOf(g, d, a), LogsAt(init, d, a), x);
      }
    } else {
      assert LogsAt(logs, d, a) == [];
    }
  }

  /** Adding a log's hours to the cell holding the sum of `before` gives the sum with it. */
  lemma CellGrows(cell: Option<Option<real>>, before: seq<ActivityLog>, x: ActivityLog)
    requires cell == if before == [] then None else Some(Some(SumHours(before)))
    requires x.hours.Some?
    ensures AddHours(cell, x.hours) == Some(SumHours(before + [x]))
  {
    assert (before + [x])[..|before|] == before;
  }

  /** One more log joins the logs of its own date and quest. */
  lemma LogsAtStep(init: seq<ActivityLog>, x: ActivityLog, d: string, a: string)
    ensures LogsAt(init + [x], d, a)
      == if DateKey(x) == d && x.activityId == a then LogsAt(init, d, a) + [x] else LogsAt(init, d, a)
  {
    assert (init + [x])[..|init|] == init;
  }

  // ---- chart points ----

  /** A chart point: the formatted date, the date key, and hours by quest name. */
  datatype ChartPoint = ChartPoint(date: string, fullDate: string, values: seq<(string, Option<real>)>)

  /** The name of the first quest with id `id`, if any. */
  function NameOf(activities: seq<Activity>, id: string): Option<string> {
    match ActivityWithId(activities, id)
    case Some(a) => Some(a.name)
    case None => None
  }

  /** Each named cell that no later cell of the same name follows sets that name's hours. */
  predicate LastCellWins(cells: Cells, activities: seq<Activity>, r: seq<(string, Option<real>)>) {
    forall i | 0 <= i < |cells| && NameOf(activities, cells[i].0).Some?
               && (forall j | i < j < |cells| :: NameOf(activities, cells[j].0) != NameOf(activities, cells[i].0)) ::
      Lookup(r, NameOf(activities, cells[i].0).value) == Some(cells[i].1)
  }

  /** The point's hours by name: each cell whose id names a quest sets that quest's name (the
      first quest with the id); a later cell with the same name overwrites. */
  function PointValues(cells: Cells, activities: seq<Activity>): (r: seq<(string, Option<real>)>)
    ensures forall k | k in Keys(r) ::
      exists i | 0 <= i < |cells| :: ActivityWithId(activities, cells[i].0).Some? && ActivityWithId(activities, cells[i].0).value.name == k
    ensures forall i | 0 <= i < |cells| && ActivityWithId(activities, cells[i].0).Some? ::
      ActivityWithId(activities, cells[i].0).value.name in Keys(r)
    ensures LastCellWins(cells, activities, r)
  {
    if cells == [] then []
    else
      var init, c := cells[..|cells| - 1], cells[|cells| - 1];
      var rest := PointValues(init, activities);
      assert forall i | 0 <= i < |init| :: init[i] == cells[i];
      assert cells == init + [c];
      var r := match NameOf(activities, c.0)
        case None => rest
        case Some(name) => Put(rest, name, c.1);
      LastCellWinsStep(init, c, activities, rest, r);
      r
  }

  /** The last-cell rule survives one more cell. */
  lemma LastCellWinsStep(init: Cells, c: (string, Option<real>), activities: seq<Activity>,
                         rest: seq<(string, Option<real>)>, r: seq<(string, Option<real>)>)
    requires LastCellWins(init, activities, rest)
    requires r == match NameOf(activities, c.0)
      case None => rest
      case Some(name) => Put(rest, name, c.1)
    ensures LastCellWins(init + [c], activities, r)
  {
    var cells := init + [c];
    forall i | 0 <= i < |cells| && NameOf(activities, cells[i].0).Some?
               && (forall j | i < j < |cells| :: NameOf(activities, cells[j].0) != NameOf(activities, cells[i].0))
      ensures Lookup(r, NameOf(activities, cells[i].0).value) == Some(cells[i].1)
    {
      var name := NameOf(activities, cells[i].0).value;
      if i == |init| {
        PutLookup(rest, name, c.1, name);
      } else {
        assert cells[i] == init[i];
        assert NameOf(activities, cells[|init|].0) != Some(name);
        assert forall j | i < j < |init| :: init[j] == cells[j];
        assert Lookup(rest, name) == Some(init[i].1);
        if NameOf(activities, c.0).Some? {
          PutLookup(rest, NameOf(activities, c.0).value, c.1, name);
        }
      }
    }
  }

  /** `chartData`: one point per date of the grid, in the grid's order, with `formatDate` standing
      for the time frame's `format`. */
  function ChartData(grid: Grid, activities: seq<Activity>, formatDate: string -> string): (r: seq<ChartPoint>)
    ensures |r| == |grid|
    ensures forall i | 0 <= i < |r| :: r[i].fullDate == grid[i].0 && r[i].date == formatDate(grid[i].0)
    ensures forall i | 0 <= i < |r| :: r[i].values == PointValues(grid[i].1, activities)
  {
    Map(grid, (entry: (string, Cells)) => ChartPoint(formatDate(entry.0), entry.0, PointValues(entry.1, activities)))
  }

  // ---- totals per quest name ----

  /** `logs.reduce((sum, log) => sum + log.hours, 0)`: NaN from the first missing hours on. */
  function HourTotal(logs: seq<ActivityLog>): Option<real> {
    if logs == [] then Some(0.0)
    else
      var s := HourTotal(logs[..|logs| - 1]);
      var h := logs[|logs| - 1].hours;
      if s.Some? && h.Some? then Some(s.value + h.value) else None
  }

  /** With every hours value present the total is the sum of the hours, and otherwise it is NaN. */
  lemma {:induction false} HourTotalIsSum(logs: seq<ActivityLog>)
    ensures (forall i | 0 <= i < |logs| :: logs[i].hours.Some?) ==> HourTotal(logs) == Some(SumHours(logs))
    ensures (exists i | 0 <= i < |logs| :: logs[i].hours.None?) ==> HourTotal(logs).None?
  {
    if logs != [] {
      var init := logs[..|logs| - 1];
      HourTotalIsSum(init);
      assert forall i | 0 <= i < |init| :: init[i] == logs[i];
      if exists i | 0 <= i < |logs| :: logs[i].hours.None? {
        var i :| 0 <= i < |logs| && logs[i].hours.None?;
        if i < |init| {
          assert init[i].hours.None?;
        }
      }
    }
  }

  /** The logs of quest `id`. */
  function LogsOf(logs: seq<ActivityLog>, id: string): seq<ActivityLog> {
    Filter(logs, (log: ActivityLog) => log.activityId == id)
  }

  /** `totals` after the `forEach` over `activities`: each quest sets its name to its hours. */
  function TotalsOf(activities: seq<Activity>, filtered: seq<ActivityLog>): seq<(string, Option<real>)> {
    if activities == [] then []
    else
      var a := activities[|activities| - 1];
      Put(TotalsOf(activities[..|activities| - 1], filtered), a.name, HourTotal(LogsOf(filtered, a.id)))
  }

  /** The `forEach` that fills `totals`. */
  method Totals(activities: seq<Activity>, filtered: seq<ActivityLog>) returns (totals: seq<(string, Option<real>)>)
    ensures totals == TotalsOf(activities, filtered)
  {
    totals := [];
    for i := 0 to |activities|
      invariant totals == TotalsOf(activities[..i], filtered)
    {
      var activity := activities[i];
      var hours := HourTotal(LogsOf(filtered, activity.id));
      totals := Put(totals, activity.name, hours);
      assert activities[..i + 1][..i] == activities[..i];
    }
    assert activities[..|activities|] == activities;
  }

  /** The last quest named `name`. */
  function LastNamed(activities: seq<Activity>, name: string): (r: Option<Activity>)
    ensures r.Some? ==> r.value in activities && r.value.name == name
    ensures r.None? <==> forall i | 0 <= i < |activities| :: activities[i].name != name
  {
    if activities == [] then None
    else if activities[|activities| - 1].name == name then Some(activities[|activities| - 1])
    else LastNamed(activities[..|activities| - 1], name)
  }

  /** `totals[name]` holds the hours of the last quest of that name, and is missing when no quest
      has the name. */
  lemma {:induction false} TotalsByName(activities: seq<Activity>, filtered: seq<ActivityLog>, name: string)
    ensures LastNamed(activities, name).None? ==> Lookup(TotalsOf(activities, filtered), name).None?
    ensures LastNamed(activities, name).Some? ==>
      Lookup(TotalsOf(activities, filtered), name) == Some(HourTotal(LogsOf(filtered, LastNamed(activities, name).value.id)))
  {
    if activities != [] {
      var init, a := activities[..|activities| - 1], activities[|activities| - 1];
      TotalsByName(init, filtered, name);
      PutLookup(TotalsOf(init, filtered), a.name, HourTotal(LogsOf(filtered, a.id)), name);
    }
  }

  /** `Object.values(totals).reduce((sum, hours) => sum + hours, 0)`, NaN once a value is NaN. */
  function SumValues(entries: seq<(string, Option<real>)>): (r: Option<real>)
    ensures r.Some? <==> forall i | 0 <= i < |entries| :: entries[i].1.Some?
  {
    if entries == [] then Some(0.0)
    else
      var s := SumValues(entries[..|entries| - 1]);
      var h := entries[|entries| - 1].1;
      if s.Some? && h.Some? then Some(s.value + h.value) else None
  }

  /** The values are present and not negative. */
  predicate HoursKnown(entries: seq<(string, Option<real>)>) {
    forall e | e in entries :: e.1.Some? && e.1.value >= 0.0
  }

  /** With known hours, the total is known and at least every single value. */
  lemma {:induction false} SumValuesBounds(entries: seq<(string, Option<real>)>)
    requires HoursKnown(entries)
    ensures SumValues(entries).Some? && SumValues(entries).value >= 0.0
    ensures forall e | e in entries :: e.1.value <= SumValues(entries).value
  {
    if entries != [] {
      var init := entries[..|entries| - 1];
      assert forall e | e in init :: e in entries;
      SumValuesBounds(init);
      assert entries == init + [entries[|entries| - 1]];
    }
  }

  // ---- the breakdown ----

  /** `([, a], [, b]) => b - a`, by its sign; a NaN difference reads as 0. */
  function MoreHoursFirst(x: (string, Option<real>), y: (string, Option<real>)): (r: int)
    ensures x.1.None? || y.1.None? ==> r == 0
    ensures x.1.Some? && y.1.Some? ==> (r < 0 <==> x.1.value > y.1.value) && (r > 0 <==> x.1.value < y.1.value)
  {
    if x.1.None? || y.1.None? then 0
    else if y.1.value > x.1.value then 1
    else if y.1.value < x.1.value then -1
    else 0
  }

  /** The breakdown's entries: `totals` sorted by hours, holding the same entries. */
  function Breakdown(totals: seq<(string, Option<real>)>): (r: seq<(string, Option<real>)>)
    ensures multiset(r) == multiset(totals) && |r| == |totals|
  {
    SortBy(totals, MoreHoursFirst)
  }

  /** With known hours the breakdown runs from the most hours to the fewest. */
  lemma BreakdownDescending(totals: seq<(string, Option<real>)>)
    requires HoursKnown(totals)
    ensures HoursKnown(Breakdown(totals))
    ensures var s := Breakdown(totals);
      forall i, j | 0 <= i < j < |s| :: s[i].1.value >= s[j].1.value
  {
    var s := Breakdown(totals);
    forall e | e in s
      ensures e.1.Some? && e.1.value >= 0.0
    {
      assert e in multiset(s);
    }
    SortBySorted(totals, MoreHoursFirst);
  }

  /** The bar's width: the share of the total in percent, 0 unless the total is positive. */
  function Percentage(hours: Option<real>, total: Option<real>): (p: Option<real>)
    ensures (total.None? || total.value <= 0.0) ==> p == Some(0.0)
    ensures total.Some? && total.value > 0.0 ==> (p.Some? <==> hours.Some?)
  {
    if total.Some? && total.value > 0.0 then
      (if hours.Some? then Some(hours.value / total.value * 100.0) else None)
    else Some(0.0)
  }

  /** With known hours every entry's share lies between 0 and 100. */
  lemma PercentagesBounded(totals: seq<(string, Option<real>)>)
    requires HoursKnown(totals)
    ensures forall e | e in Breakdown(totals) ::
      Percentage(e.1, SumValues(totals)).Some?
      && 0.0 <= Percentage(e.1, SumValues(totals)).value <= 100.0
  {
    SumValuesBounds(totals);
    var t := SumValues(totals).value;
    forall e | e in Breakdown(totals)
      ensures Percentage(e.1, SumValues(totals)).Some?
      ensures 0.0 <= Percentage(e.1, SumValues(totals)).value <= 100.0
    {
      assert e in multiset(Breakdown(totals));
      if t > 0.0 {
        ShareBounded(e.1.value, t);
      }
    }
  }

  lemma ShareBounded(h: real, t: real)
    requires 0.0 <= h <= t && t > 0.0
    ensures 0.0 <= h / t * 100.0 <= 100.0
  {
    assert h / t * t == h;
  }

  // ---- the whole memo ----

  /** The `useMemo` of the view: window, filter, grid, chart points and totals, with the clock
      reading `clock`. */
  method Stats(activities: seq<Activity>, logs: seq<ActivityLog>, timeFrame: string, clock: int,
               rt: Runtime, formatDate: string -> string) returns (chartData: seq<ChartPoint>, totals: seq<(string, Option<real>)>)
    ensures var filtered := WindowLogs(logs, rt, MakeDate(WindowStartDay(timeFrame, DayOfTime(clock)), 0), clock);
      && chartData == ChartData(Grouped(filtered), activities, formatDate)
      && totals == TotalsOf(activities, filtered)
  {
    var now := new DateTime.Now(clock);
    var startDate := WindowStart(timeFrame, now);
    var filtered := WindowLogs(logs, rt, startDate.time, now.time);
    var grouped := GroupByDate(filtered);
    chartData := ChartData(grouped, activities, formatDate);
    totals := Totals(activities, filtered);
  }
}
