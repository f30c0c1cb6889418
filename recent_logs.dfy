/** The recent-logs list (`recent-logs.tsx`): a sorted copy of the logs, newest first, of which
    the first fifty are shown, each beside the quest it belongs to. */
module RecentLogs {
  import opened Wrappers
  import opened Seqs
  import opened Sorting
  import opened Types

  /** At most this many logs are shown. */
  const MaxShown: nat := 50

  /** `new Date(log.date).getTime()`: None (NaN) when the date is missing or not a valid date. */
  function LogTime(log: ActivityLog, rt: Runtime): Option<int> {
    if log.date.Some? then rt.parseDate(log.date.value) else None
  }

  /** The comparator of `sortedLogs`: the newer log first, and for equal times the greater id
      (under `collate`, `localeCompare`) first. When a time is NaN the difference is NaN, which
      is returned and which the sort reads as 0. */
  function NewestFirst(a: ActivityLog, b: ActivityLog, rt: Runtime, collate: (string, string) -> int): (r: int)
    ensures LogTime(a, rt).None? || LogTime(b, rt).None? ==> r == 0
    ensures LogTime(a, rt).Some? && LogTime(b, rt).Some? && LogTime(a, rt) != LogTime(b, rt) ==>
      (r < 0 <==> LogTime(a, rt).value > LogTime(b, rt).value) && r != 0
    ensures LogTime(a, rt).Some? && LogTime(a, rt) == LogTime(b, rt) ==> r == collate(b.id, a.id)
  {
    var ta, tb := LogTime(a, rt), LogTime(b, rt);
    if ta.None? || tb.None? then 0
    else if tb.value - ta.value != 0 then tb.value - ta.value
    else collate(b.id, a.id)
  }

  function LogOrder(rt: Runtime, collate: (string, string) -> int): (ActivityLog, ActivityLog) -> int {
    (a: ActivityLog, b: ActivityLog) => NewestFirst(a, b, rt, collate)
  }

  /** `sortedLogs`: a sorted copy, holding the same logs. */
  function SortedLogs(logs: seq<ActivityLog>, rt: Runtime, collate: (string, string) -> int): (r: seq<ActivityLog>)
    ensures multiset(r) == multiset(logs) && |r| == |logs|
  {
    SortBy(logs, LogOrder(rt, collate))
  }

  /** Every log has a valid date. */
  predicate TimesValid(logs: seq<ActivityLog>, rt: Runtime) {
    forall log | log in logs :: LogTime(log, rt).Some?
  }

  /** `localeCompare` orders the ids of `logs` as a total preorder does. */
  ghost predicate IdCollationConsistent(collate: (string, string) -> int, logs: seq<ActivityLog>) {
    ConsistentOn((a: ActivityLog, b: ActivityLog) => collate(a.id, b.id), logs)
  }

  /** With valid dates, newest-first with the id tie-break is a consistent order. */
  lemma LogOrderConsistent(logs: seq<ActivityLog>, rt: Runtime, collate: (string, string) -> int)
    requires TimesValid(logs, rt) && IdCollationConsistent(collate, logs)
    ensures ConsistentOn(LogOrder(rt, collate), logs)
  {
    var cmp := LogOrder(rt, collate);
    var byId := (a: ActivityLog, b: ActivityLog) => collate(a.id, b.id);
    forall a, b | a in logs && b in logs
      ensures cmp(a, b) <= 0 <==> cmp(b, a) >= 0
    {
      assert byId(b, a) <= 0 <==> byId(a, b) >= 0;
    }
    forall a, b, c | a in logs && b in logs && c in logs && cmp(a, b) <= 0 && cmp(b, c) <= 0
      ensures cmp(a, c) <= 0
    {
      var ta, tb, tc := LogTime(a, rt).value, LogTime(b, rt).value, LogTime(c, rt).value;
      if ta == tb == tc {
        assert byId(c, b) <= 0 && byId(b, a) <= 0;
      }
    }
  }

  /** The sorted copy keeps every date valid. */
  lemma SortedTimesValid(logs: seq<ActivityLog>, rt: Runtime, collate: (string, string) -> int)
    requires TimesValid(logs, rt)
    ensures TimesValid(SortedLogs(logs, rt, collate), rt)
  {
    var s := SortedLogs(logs, rt, collate);
    forall log | log in s
      ensures LogTime(log, rt).Some?
    {
      assert log in multiset(s);
    }
  }

  /** With valid dates the list runs from the newest log to the oldest, and logs of the same
      time come by id, descending. */
  lemma SortedNewestFirst(logs: seq<ActivityLog>, rt: Runtime, collate: (string, string) -> int)
    requires TimesValid(logs, rt) && IdCollationConsistent(collate, logs)
    ensures TimesValid(SortedLogs(logs, rt, collate), rt)
    ensures var s := SortedLogs(logs, rt, collate);
      forall i, j | 0 <= i < j < |s| ::
        && LogTime(s[i], rt).value >= LogTime(s[j], rt).value
        && (LogTime(s[i], rt).value == LogTime(s[j], rt).value ==> collate(s[j].id, s[i].id) <= 0)
  {
    SortedTimesValid(logs, rt, collate);
    LogOrderConsistent(logs, rt, collate);
    SortBySorted(logs, LogOrder(rt, collate));
  }

  // ---- the rows shown ----

  /** `activities.find((a) => a.id === log.activityId)`. */
  function ActivityOf(activities: seq<Activity>, log: ActivityLog): Option<Activity> {
    ActivityWithId(activities, log.activityId)
  }

  /** Whether some quest has the log's `activityId`. */
  predicate HasActivity(activities: seq<Activity>, log: ActivityLog) {
    exists i | 0 <= i < |activities| :: activities[i].id == log.activityId
  }

  /** The logs with a quest, in their order. */
  function Matched(shown: seq<ActivityLog>, activities: seq<Activity>): seq<ActivityLog> {
    Filter(shown, (log: ActivityLog) => HasActivity(activities, log))
  }

  /** A row: a log and the first quest with its `activityId`; orphaned logs give no row. */
  function Rows(shown: seq<ActivityLog>, activities: seq<Activity>): (r: seq<(ActivityLog, Activity)>)
    ensures |r| <= |shown|
    ensures forall i | 0 <= i < |r| ::
      && r[i].0 in shown && r[i].1 in activities && r[i].1.id == r[i].0.activityId
      && ActivityOf(activities, r[i].0) == Some(r[i].1)
  {
    if shown == [] then []
    else
      var log := shown[|shown| - 1];
      var rest := Rows(shown[..|shown| - 1], activities);
      match ActivityOf(activities, log)
      case None => rest
      case Some(a) => rest + [(log, a)]
  }

  function RowLog(row: (ActivityLog, Activity)): ActivityLog {
    row.0
  }

  /** The rows' logs are exactly the shown logs that have a quest, in the same order. */
  lemma {:induction false} RowsAreMatchedLogs(shown: seq<ActivityLog>, activities: seq<Activity>)
    ensures Map(Rows(shown, activities), RowLog) == Matched(shown, activities)
  {
    if shown != [] {
      var init, log := shown[..|shown| - 1], shown[|shown| - 1];
      RowsAreMatchedLogs(init, activities);
      var rest := Rows(init, activities);
      if ActivityOf(activities, log).Some? {
        assert HasActivity(activities, log);
        var r := rest + [(log, ActivityOf(activities, log).value)];
        assert Rows(shown, activities) == r;
        assert Map(r, RowLog)[..|rest|] == Map(rest, RowLog);
      } else {
        assert !HasActivity(activities, log);
      }
    }
  }

  /** What the list shows: rows for the first fifty sorted logs. */
  function RecentRows(activities: seq<Activity>, logs: seq<ActivityLog>, rt: Runtime,
                      collate: (string, string) -> int): (r: seq<(ActivityLog, Activity)>)
    ensures |r| <= MaxShown && |r| <= |logs|
    ensures forall i | 0 <= i < |r| :: r[i].0 in logs && r[i].1 in activities && r[i].1.id == r[i].0.activityId
  {
    var sorted := SortedLogs(logs, rt, collate);
    var shown := sorted[..if |sorted| < MaxShown then |sorted| else MaxShown];
    var r := Rows(shown, activities);
    forall i | 0 <= i < |r|
      ensures r[i].0 in logs
    {
      assert r[i].0 in multiset(sorted);
    }
    r
  }

  /** When every log belongs to a quest, the list shows fifty logs, or all of them when there are
      fewer. */
  lemma AllMatchedShowsFifty(activities: seq<Activity>, logs: seq<ActivityLog>, rt: Runtime,
                             collate: (string, string) -> int)
    requires forall log | log in logs :: HasActivity(activities, log)
    ensures |RecentRows(activities, logs, rt, collate)| == if |logs| < MaxShown then |logs| else MaxShown
  {
    var sorted := SortedLogs(logs, rt, collate);
    var shown := sorted[..if |sorted| < MaxShown then |sorted| else MaxShown];
    forall i | 0 <= i < |shown|
      ensures HasActivity(activities, shown[i])
    {
      assert shown[i] in multiset(sorted);
    }
    FilterKeepsAll(shown, (log: ActivityLog) => HasActivity(activities, log));
    RowsAreMatchedLogs(shown, activities);
  }

  /** The word after the hours: "hour" exactly when the log has exactly 1 hour. */
  function HourWord(hours: Option<real>): (r: string)
    ensures r == "hour" <==> hours == Some(1.0)
    ensures r == "hour" || r == "hours"
  {
    if hours == Some(1.0) then "hour" else "hours"
  }
}
