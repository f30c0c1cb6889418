/** The quest tracker's records (quests, goals, logs), the loosely-typed stored values they
    are read back from, and the runtime services the model takes as parameters. */
module Types {
  import opened Wrappers
  import opened Seqs

  /** A value as `JSON.parse` returns it: `JObj` is a plain object. */
  datatype Json =
    | JNull
    | JBool(b: bool)
    | JNum(n: real)
    | JStr(s: string)
    | JArr(items: seq<Json>)
    | JObj(fields: map<string, Json>)

  /** `v[key]` on a parsed value: a field of an object, `undefined` (None) on anything else. */
  function Get(v: Json, key: string): (r: Option<Json>)
    ensures r.Some? <==> v.JObj? && key in v.fields
  {
    if v.JObj? && key in v.fields then Some(v.fields[key]) else None
  }

  /** `x != null`: neither `undefined` nor `null`. */
  predicate Present(x: Option<Json>) {
    x.Some? && x.value != JNull
  }

  /** A stored payload as `localStorage.getItem` plus `JSON.parse` deliver it: nothing (or an
      empty string), text that does not parse, or a parsed value. */
  datatype Stored = Absent | Unparsable | Parsed(value: Json)

  datatype Unit = Hours | Sessions | Occurrences
  datatype TimeRange = Day | Week | Month | Year
  datatype Kind = Campaign | SideQuest
  datatype Category = Warrior | Scholar | Adventurer | Craftsman

  datatype Goal = Goal(amount: real, unit: Unit, timeRange: TimeRange)

  /** A quest. `None` stands for a field that is `null` or not set. */
  datatype Activity = Activity(
    id: string,
    name: string,
    color: string,
    goals: seq<Goal>,
    startDate: string,
    endDate: Option<string>,
    kind: Option<Kind>,
    notes: Option<string>,
    category: Option<Category>,
    archetype: Option<Category>)

  /** One logged session. `date` is what the statistics views read; the store writes
      `submittedAt` instead. */
  datatype ActivityLog = ActivityLog(
    id: string,
    activityId: string,
    hours: Option<real>,
    date: Option<string>,
    title: Option<string>,
    notes: Option<string>,
    submittedAt: Option<string>)

  /** The data for a new quest, as the add form hands it over (the id is generated). */
  datatype NewQuestData = NewQuestData(
    name: string,
    color: string,
    goals: Option<seq<Goal>>,
    startDate: Option<string>,
    endDate: Option<string>,
    kind: Option<Kind>,
    notes: Option<string>,
    category: Option<Category>,
    archetype: Option<Category>)

  /** A partial update: `None` leaves a field alone; `Some(None)` sets a nullable field to `null`. */
  datatype QuestUpdate = QuestUpdate(
    name: Option<string>,
    color: Option<string>,
    goals: Option<seq<Goal>>,
    startDate: Option<string>,
    endDate: Option<Option<string>>,
    kind: Option<Option<Kind>>,
    notes: Option<Option<string>>,
    category: Option<Option<Category>>,
    archetype: Option<Option<Category>>)

  /** Services of the JavaScript runtime whose results the model does not compute. */
  datatype Runtime = Runtime(
    /** `Number.prototype.toString()`. */
    numberText: real -> string,
    /** `Number(text)`: None for NaN. */
    textNumber: string -> Option<real>,
    /** `Date.prototype.toISOString()` of a time value. */
    isoString: int -> string,
    /** The calendar day of an ISO timestamp (`getDateStringFromISO`, not defined in the code). */
    isoDay: string -> string,
    /** `new Date(text).getTime()`: None for an invalid date. */
    parseDate: string -> Option<int>)

  function UnitName(u: Unit): string {
    match u
    case Hours => "hours"
    case Sessions => "sessions"
    case Occurrences => "occurrences"
  }

  function RangeName(r: TimeRange): string {
    match r
    case Day => "day"
    case Week => "week"
    case Month => "month"
    case Year => "year"
  }

  function KindName(k: Kind): string {
    match k
    case Campaign => "campaign"
    case SideQuest => "sideQuest"
  }

  function CategoryName(c: Category): string {
    match c
    case Warrior => "warrior"
    case Scholar => "scholar"
    case Adventurer => "adventurer"
    case Craftsman => "craftsman"
  }

  /** `(a.kind ?? 'campaign') === 'campaign'`. */
  predicate IsCampaign(a: Activity) {
    a.kind.GetOr(Campaign) == Campaign
  }

  /** `a.kind === 'sideQuest'`. */
  predicate IsSideQuest(a: Activity) {
    a.kind == Some(SideQuest)
  }

  /** The campaigns of a list, in order: a missing kind counts as a campaign. */
  function Campaigns(activities: seq<Activity>): seq<Activity> {
    Filter(activities, IsCampaign)
  }

  /** The side quests of a list, in order. */
  function SideQuests(activities: seq<Activity>): seq<Activity> {
    Filter(activities, IsSideQuest)
  }

  /** `activities.find((a) => a.id === id)`: the first quest with id `id`. */
  function ActivityWithId(activities: seq<Activity>, id: string): (r: Option<Activity>)
    ensures r.Some? <==> exists i | 0 <= i < |activities| :: activities[i].id == id
    ensures r.Some? ==> r.value in activities && r.value.id == id
  {
    Find(activities, (a: Activity) => a.id == id)
  }

  /** Every quest of a list is either a campaign or a side quest, never both: the two lists
      together hold each quest exactly as often as the list does, and keep its order. */
  lemma KindPartition(activities: seq<Activity>)
    ensures multiset(Campaigns(activities)) + multiset(SideQuests(activities)) == multiset(activities)
    ensures forall i | 0 <= i < |Campaigns(activities)| :: Campaigns(activities)[i] !in SideQuests(activities)
    ensures forall i | 0 <= i < |activities| :: activities[i] in Campaigns(activities) || activities[i] in SideQuests(activities)
    ensures IsSubsequence(Campaigns(activities), activities) && IsSubsequence(SideQuests(activities), activities)
  {
    FilterSplits(activities, IsCampaign, IsSideQuest);
    FilterIsSubsequence(activities, IsCampaign);
    FilterIsSubsequence(activities, IsSideQuest);
  }
}
