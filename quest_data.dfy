/** The single store of quests and logs (`useQuestData`): loading the stored lists with their
    fallbacks, the log record normaliser, and the add/update/remove operations. */
module QuestData {
  import opened Wrappers
  import opened Text
  import opened Seqs
  import opened Calendar
  import opened Types
  import opened DateUtil
  import NQ = NormalizeQuest

  // ---- JavaScript coercions of stored values ----

  /** `String(v)` of a parsed value: arrays are joined with commas (null items give ""),
      objects give "[object Object]". */
  function JsString(v: Json, rt: Runtime): string
    decreases v, 1
  {
    match v
    case JNull => "null"
    case JBool(b) => if b then "true" else "false"
    case JNum(n) => rt.numberText(n)
    case JStr(s) => s
    case JArr(items) => JoinItems(v, items, rt)
    case JObj(_) => "[object Object]"
  }

  function JoinItems(ghost parent: Json, items: seq<Json>, rt: Runtime): string
    requires forall i | 0 <= i < |items| :: items[i] < parent
    decreases parent, 0, |items|
  {
    if items == [] then ""
    else
      var first := if items[0] == JNull then "" else JsString(items[0], rt);
      if |items| == 1 then first else first + "," + JoinItems(parent, items[1..], rt)
  }

  /** `String(x)` where `x` may be `undefined`. */
  function JsStringOf(x: Option<Json>, rt: Runtime): string {
    match x
    case Some(v) => JsString(v, rt)
    case None => "undefined"
  }

  /** `Number(v)`: None stands for NaN. */
  function JsNumber(v: Json, rt: Runtime): Option<real> {
    match v
    case JNull => Some(0.0)
    case JBool(b) => Some(if b then 1.0 else 0.0)
    case JNum(n) => Some(n)
    case JStr(s) => rt.textNumber(s)
    case JArr(_) => rt.textNumber(JsString(v, rt))
    case JObj(_) => None
  }

  // ---- normalizeLog ----

  /** The time value `new Date(y, m, d, 12, 0, 0, 0)` gives for the fields of the day holding
      time value `t`: noon of that day (years 0 to 99 aside, which the constructor reads as 19xx). */
  function NoonOf(t: int): int {
    var n := DayOfTime(t);
    MakeDate(MakeDay(FullYear(YearOf(n)), MonthOf(n), DateOf(n)), MakeTime(12, 0, 0, 0))
  }

  lemma NoonOfIsNoon(t: int)
    requires !(0 <= YearOf(DayOfTime(t)) <= 99)
    ensures NoonOf(t) == MakeDate(DayOfTime(t), 12 * MsPerHour)
    ensures DayOfTime(NoonOf(t)) == DayOfTime(t)
  {
    FieldsRebuildDay(DayOfTime(t));
    DayOfMakeDate(DayOfTime(t), 12 * MsPerHour);
  }

  /** The `submittedAt` a log gets: the stored one as a string, else noon of its stored `date`
      (or of today) as an ISO timestamp. None when that date is invalid (`toISOString` throws). */
  function SubmittedAtOf(raw: Json, today: string, rt: Runtime): (r: Option<string>)
    ensures Present(Get(raw, "submittedAt")) ==> r == Some(JsString(Get(raw, "submittedAt").value, rt))
    ensures !Present(Get(raw, "submittedAt")) ==>
      var dateStr := if Present(Get(raw, "date")) then JsString(Get(raw, "date").value, rt) else today;
      && (r.None? <==> ParseLocalDate(dateStr).None?)
      && (r.Some? ==> r.value == rt.isoString(NoonOf(ParseLocalDate(dateStr).value)))
  {
    var submitted := Get(raw, "submittedAt");
    if Present(submitted) then Some(JsString(submitted.value, rt))
    else
      var date := Get(raw, "date");
      var dateStr := if Present(date) then JsString(date.value, rt) else today;
      match ParseLocalDate(dateStr)
      case Some(t) => Some(rt.isoString(NoonOf(t)))
      case None => None
  }

  /** An optional text field of a log: kept (as a string) only when present and not `''`. */
  function OptionalText(raw: Json, key: string, rt: Runtime): (r: Option<string>)
    ensures r.Some? <==> Present(Get(raw, key)) && Get(raw, key) != Some(JStr(""))
    ensures r.Some? ==> r.value == JsString(Get(raw, key).value, rt)
  {
    var x := Get(raw, key);
    if Present(x) && x != Some(JStr("")) then Some(JsString(x.value, rt)) else None
  }

  /** `normalizeLog(raw)` with `getTodayLocal()` returning `today`; None when it throws (a
      `null` record, or a fallback date that is not a valid date). The result has no `date`. */
  function NormalizeLog(raw: Json, today: string, rt: Runtime): (r: Option<ActivityLog>)
    ensures r.None? <==> raw == JNull || SubmittedAtOf(raw, today, rt).None?
    ensures r.Some? ==>
      && r.value.id == JsStringOf(Get(raw, "id"), rt)
      && r.value.activityId == JsStringOf(Get(raw, "activityId"), rt)
      && (r.value.hours.Some? ==> Present(Get(raw, "hours")))
      && (Present(Get(raw, "hours")) ==> r.value.hours == JsNumber(Get(raw, "hours").value, rt))
      && r.value.title == OptionalText(raw, "title", rt)
      && r.value.notes == OptionalText(raw, "notes", rt)
      && r.value.submittedAt == SubmittedAtOf(raw, today, rt)
      && r.value.date.None?
  {
    if raw == JNull then None
    else
      match SubmittedAtOf(raw, today, rt)
      case None => None
      case Some(submittedAt) =>
        var hours := Get(raw, "hours");
        Some(ActivityLog(
          JsStringOf(Get(raw, "id"), rt),
          JsStringOf(Get(raw, "activityId"), rt),
          if Present(hours) then JsNumber(hours.value, rt) else None,
          None,
          OptionalText(raw, "title", rt),
          OptionalText(raw, "notes", rt),
          Some(submittedAt)))
  }

  // ---- loading ----

  /** The four starter quests, dated today. */
  function DefaultQuests(today: string): (qs: seq<Activity>)
    ensures |qs| == 4
    ensures forall i | 0 <= i < 4 ::
      (qs[i].id == NatToString(i + 1) && qs[i].goals == [] && qs[i].startDate == today
       && qs[i].endDate.None? && qs[i].kind.None?)
  {
    [ Starter("1", "Exercise", "#10b981", today), Starter("2", "Reading", "#3b82f6", today),
      Starter("3", "Work", "#8b5cf6", today), Starter("4", "Study", "#f59e0b", today) ]
  }

  function Starter(id: string, name: string, color: string, today: string): Activity {
    Activity(id, name, color, [], today, None, None, None, None, None)
  }

  /** `parsed.map(normalizeQuest)` for a list without `null` items. */
  function NormalizeAll(items: seq<Json>, today: string): (qs: seq<Activity>)
    requires forall i | 0 <= i < |items| :: items[i] != JNull
    ensures |qs| == |items|
    ensures forall i | 0 <= i < |items| :: qs[i] == NQ.Normalize(items[i], today)
  {
    if items == [] then [] else [NQ.Normalize(items[0], today)] + NormalizeAll(items[1..], today)
  }

  /** `loadQuests()`: the stored list normalised item by item, or the starter quests when
      nothing is stored, the text does not parse, it is not a list, or an item is `null`
      (normalising `null` throws). */
  function LoadQuests(stored: Stored, today: string): (qs: seq<Activity>)
    ensures (stored.Parsed? && stored.value.JArr? && forall i | 0 <= i < |stored.value.items| :: stored.value.items[i] != JNull)
      ==> |qs| == |stored.value.items| && forall i | 0 <= i < |qs| :: qs[i] == NQ.Normalize(stored.value.items[i], today)
    ensures !(stored.Parsed? && stored.value.JArr? && forall i | 0 <= i < |stored.value.items| :: stored.value.items[i] != JNull)
      ==> qs == DefaultQuests(today)
  {
    match stored
    case Parsed(JArr(items)) =>
      if forall i | 0 <= i < |items| :: items[i] != JNull then NormalizeAll(items, today) else DefaultQuests(today)
    case _ => DefaultQuests(today)
  }

  /** `parsed.map(normalizeLog)`: None as soon as one item throws. */
  function NormalizeLogs(items: seq<Json>, today: string, rt: Runtime): (r: Option<seq<ActivityLog>>)
    ensures r.Some? <==> forall i | 0 <= i < |items| :: NormalizeLog(items[i], today, rt).Some?
    ensures r.Some? ==> |r.value| == |items| && forall i | 0 <= i < |items| :: Some(r.value[i]) == NormalizeLog(items[i], today, rt)
  {
    MapAll(items, (item: Json) => NormalizeLog(item, today, rt))
  }

  /** The initial-load filter: the submitted day, as a string, is not before today. */
  predicate SubmittedFromToday(log: ActivityLog, today: string, rt: Runtime) {
    AtLeast(rt.isoDay(log.submittedAt.GetOr("")), today)
  }

  /** The initial log list: the stored logs normalised and filtered to those submitted today
      or later; empty when nothing is stored, the text does not parse, it is not a list, or an
      item cannot be normalised. */
  function LoadLogs(stored: Stored, today: string, rt: Runtime): (logs: seq<ActivityLog>)
    ensures forall i | 0 <= i < |logs| :: SubmittedFromToday(logs[i], today, rt) && logs[i].submittedAt.Some?
    ensures !(stored.Parsed? && stored.value.JArr?) ==> logs == []
    ensures stored.Parsed? && stored.value.JArr? ==>
      match NormalizeLogs(stored.value.items, today, rt)
      case None => logs == []
      case Some(all) => logs == Filter(all, (log: ActivityLog) => SubmittedFromToday(log, today, rt))
  {
    match stored
    case Parsed(JArr(items)) =>
      (match NormalizeLogs(items, today, rt)
       case Some(all) => Filter(all, (log: ActivityLog) => SubmittedFromToday(log, today, rt))
       case None => [])
    case _ => []
  }

  // ---- the store's updaters ----

  /** The quest `addQuest` appends: the form's fields with defaults for what is not given.
      The category is not copied; `archetype` defaults to warrior. */
  function NewQuest(data: NewQuestData, id: string, today: string): (q: Activity)
    ensures q.id == id && q.name == data.name && q.color == data.color
    ensures q.goals == data.goals.GetOr([]) && q.startDate == data.startDate.GetOr(today)
    ensures q.endDate == data.endDate && q.notes == data.notes
    ensures q.kind == Some(data.kind.GetOr(Campaign)) && q.archetype == Some(data.archetype.GetOr(Warrior))
    ensures q.category.None?
  {
    Activity(id, data.name, data.color, data.goals.GetOr([]), data.startDate.GetOr(today), data.endDate,
             Some(data.kind.GetOr(Campaign)), data.notes, None, Some(data.archetype.GetOr(Warrior)))
  }

  /** `{ ...q, ...update }`: the fields the update carries replace the quest's, the rest stay. */
  function Merge(q: Activity, u: QuestUpdate): (r: Activity)
    ensures r.id == q.id
    ensures r.name == u.name.GetOr(q.name) && r.color == u.color.GetOr(q.color)
    ensures r.goals == u.goals.GetOr(q.goals) && r.startDate == u.startDate.GetOr(q.startDate)
    ensures r.endDate == u.endDate.GetOr(q.endDate) && r.kind == u.kind.GetOr(q.kind)
    ensures r.notes == u.notes.GetOr(q.notes) && r.category == u.category.GetOr(q.category)
    ensures r.archetype == u.archetype.GetOr(q.archetype)
  {
    Activity(q.id, u.name.GetOr(q.name), u.color.GetOr(q.color), u.goals.GetOr(q.goals),
             u.startDate.GetOr(q.startDate), u.endDate.GetOr(q.endDate), u.kind.GetOr(q.kind),
             u.notes.GetOr(q.notes), u.category.GetOr(q.category), u.archetype.GetOr(q.archetype))
  }

  /** The `updateQuest` updater: quests with the id are merged with the update, the others are
      kept as they are, in the same order. */
  function UpdateQuests(qs: seq<Activity>, id: string, u: QuestUpdate): (r: seq<Activity>)
    ensures |r| == |qs|
    ensures forall i | 0 <= i < |qs| :: r[i].id == qs[i].id
    ensures forall i | 0 <= i < |qs| :: qs[i].id != id ==> r[i] == qs[i]
    ensures forall i | 0 <= i < |qs| :: qs[i].id == id ==> r[i] == Merge(qs[i], u)
  {
    if qs == [] then []
    else [if qs[0].id != id then qs[0] else Merge(qs[0], u)] + UpdateQuests(qs[1..], id, u)
  }

  /** Applying the same update twice is applying it once. */
  lemma UpdateIdempotent(qs: seq<Activity>, id: string, u: QuestUpdate)
    ensures UpdateQuests(UpdateQuests(qs, id, u), id, u) == UpdateQuests(qs, id, u)
  {
    var once := UpdateQuests(qs, id, u);
    var twice := UpdateQuests(once, id, u);
    forall i | 0 <= i < |qs| ensures twice[i] == once[i] {
      if qs[i].id == id {
        assert Merge(Merge(qs[i], u), u) == Merge(qs[i], u);
      }
    }
  }

  /** The `removeQuest` updater: every quest with the id goes, the rest stay in order. */
  function RemoveQuests(qs: seq<Activity>, id: string): (r: seq<Activity>)
    ensures forall i | 0 <= i < |r| :: r[i].id != id && r[i] in qs
    ensures forall i | 0 <= i < |qs| && qs[i].id != id :: qs[i] in r
    ensures IsSubsequence(r, qs)
    ensures forall q: Activity | q.id != id :: multiset(r)[q] == multiset(qs)[q]
  {
    FilterIsSubsequence(qs, (q: Activity) => q.id != id);
    FilterMultiplicity(qs, (q: Activity) => q.id != id);
    Filter(qs, (q: Activity) => q.id != id)
  }

  /** The `deleteLog` updater: every log with the id goes, the rest stay in order. */
  function RemoveLogs(logs: seq<ActivityLog>, id: string): (r: seq<ActivityLog>)
    ensures forall i | 0 <= i < |r| :: r[i].id != id && r[i] in logs
    ensures forall i | 0 <= i < |logs| && logs[i].id != id :: logs[i] in r
    ensures IsSubsequence(r, logs)
    ensures forall l: ActivityLog | l.id != id :: multiset(r)[l] == multiset(logs)[l]
  {
    FilterIsSubsequence(logs, (l: ActivityLog) => l.id != id);
    FilterMultiplicity(logs, (l: ActivityLog) => l.id != id);
    Filter(logs, (l: ActivityLog) => l.id != id)
  }

  /** Removing twice is removing once. */
  lemma RemoveIdempotent(qs: seq<Activity>, id: string)
    ensures RemoveQuests(RemoveQuests(qs, id), id) == RemoveQuests(qs, id)
  {
    var r := RemoveQuests(qs, id);
    FilterKeepsAll(r, (q: Activity) => q.id != id);
  }

  /** A text argument as `addLog` stores it: only when given and not empty. */
  function NonEmpty(s: Option<string>): (r: Option<string>)
    ensures r.Some? <==> s.Some? && s.value != ""
    ensures r.Some? ==> r == s
  {
    if s.Some? && s.value != "" then s else None
  }

  /** The log `addLog` appends; `now` is `new Date().toISOString()` at the call. */
  function NewLog(questId: string, hours: Option<real>, title: Option<string>, notes: Option<string>,
                  submittedAt: Option<string>, id: string, now: string): (log: ActivityLog)
    ensures log.id == id && log.activityId == questId && log.hours == hours
    ensures log.title == NonEmpty(title) && log.notes == NonEmpty(notes)
    ensures log.submittedAt == Some(submittedAt.GetOr(now)) && log.date.None?
  {
    ActivityLog(id, questId, hours, None, NonEmpty(title), NonEmpty(notes), Some(submittedAt.GetOr(now)))
  }

  /** The two state cells of the store. Each operation replaces one list and leaves the other. */
  class QuestStore {
    var quests: seq<Activity>
    var logs: seq<ActivityLog>

    /** The initial state, from what storage holds when the store is created. */
    constructor (storedQuests: Stored, storedLogs: Stored, today: string, rt: Runtime)
      ensures quests == LoadQuests(storedQuests, today)
      ensures logs == LoadLogs(storedLogs, today, rt)
    {
      quests := LoadQuests(storedQuests, today);
      logs := LoadLogs(storedLogs, today, rt);
    }

    method AddQuest(data: NewQuestData, id: string, today: string)
      modifies this
      ensures quests == old(quests) + [NewQuest(data, id, today)]
      ensures logs == old(logs)
    {
      quests := quests + [NewQuest(data, id, today)];
    }

    method UpdateQuest(id: string, update: QuestUpdate)
      modifies this
      ensures quests == UpdateQuests(old(quests), id, update)
      ensures logs == old(logs)
    {
      quests := UpdateQuests(quests, id, update);
    }

    /** Removes the quest; its logs stay. */
    method RemoveQuest(id: string)
      modifies this
      ensures quests == RemoveQuests(old(quests), id)
      ensures logs == old(logs)
    {
      quests := RemoveQuests(quests, id);
    }

    method AddLog(questId: string, hours: Option<real>, title: Option<string>, notes: Option<string>,
                  submittedAt: Option<string>, id: string, now: string)
      modifies this
      ensures logs == old(logs) + [NewLog(questId, hours, title, notes, submittedAt, id, now)]
      ensures quests == old(quests)
    {
      logs := logs + [NewLog(questId, hours, title, notes, submittedAt, id, now)];
    }

    method DeleteLog(id: string)
      modifies this
      ensures logs == RemoveLogs(old(logs), id)
      ensures quests == old(quests)
    {
      logs := RemoveLogs(logs, id);
    }

    /** What the persistence effect writes for the quest list, as read back by `JSON.parse`. */
    function SavedQuests(): Stored
      reads this
    {
      Parsed(JArr(Map(quests, NQ.Encode)))
    }
  }

  /** Quests in the shape `normalizeQuest` produces survive being saved and loaded again. */
  lemma SaveThenLoad(qs: seq<Activity>, today: string)
    requires forall i | 0 <= i < |qs| :: NQ.Normal(qs[i])
    ensures LoadQuests(Parsed(JArr(Map(qs, NQ.Encode))), today) == qs
  {
    NormalizeAllEncoded(qs, today);
    LoadParsedList(Map(qs, NQ.Encode), today);
  }

  lemma LoadParsedList(items: seq<Json>, today: string)
    requires forall i | 0 <= i < |items| :: items[i] != JNull
    ensures LoadQuests(Parsed(JArr(items)), today) == NormalizeAll(items, today)
  {
  }

  lemma NormalizeAllEncoded(qs: seq<Activity>, today: string)
    requires forall i | 0 <= i < |qs| :: NQ.Normal(qs[i])
    ensures forall i | 0 <= i < |qs| :: Map(qs, NQ.Encode)[i] != JNull
    ensures NormalizeAll(Map(qs, NQ.Encode), today) == qs
  {
    var items := Map(qs, NQ.Encode);
    var loaded := NormalizeAll(items, today);
    forall i | 0 <= i < |qs| ensures loaded[i] == qs[i] {
      NQ.EncodeThenNormalize(qs[i], today);
    }
  }

  /** A goal counted in occurrences (what the goal editor's unit toggle produces) is dropped
      when the quest is saved and loaded again. */
  lemma OccurrencesGoalDropped(q: Activity, today: string)
    requires |q.goals| == 1 && q.goals[0].unit == Occurrences
    ensures NQ.Normalize(NQ.Encode(q), today).goals == []
  {
    var items := Map(q.goals, NQ.EncodeGoal);
    assert Get(NQ.Encode(q), "goals") == NQ.EncodedField(q, "goals") == Some(JArr(items));
    assert !NQ.IsGoalRecord(items[0]);
  }
}
