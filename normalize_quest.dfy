/** Reading a stored quest record back into the quest schema (`normalizeQuest`): every field
    is checked and replaced by a default when it does not have the expected type. */
module NormalizeQuest {
  import opened Wrappers
  import opened Types
  import opened Seqs

  const DefaultColor: string := "#6b7280"

  /** `raw[key]` when it is a string (`typeof raw[key] === 'string'`). */
  function StringField(raw: Json, key: string): (r: Option<string>)
    ensures r.Some? <==> Get(raw, key).Some? && Get(raw, key).value.JStr?
    ensures r.Some? ==> Get(raw, key) == Some(JStr(r.value))
  {
    match Get(raw, key)
    case Some(JStr(s)) => Some(s)
    case _ => None
  }

  function UnitOf(v: Option<Json>): Option<Unit> {
    if v == Some(JStr("hours")) then Some(Hours)
    else if v == Some(JStr("sessions")) then Some(Sessions)
    else None
  }

  function TimeRangeOf(v: Option<Json>): Option<TimeRange> {
    if v == Some(JStr("day")) then Some(Day)
    else if v == Some(JStr("week")) then Some(Week)
    else if v == Some(JStr("month")) then Some(Month)
    else if v == Some(JStr("year")) then Some(Year)
    else None
  }

  /** The goal filter: not null, a numeric `amount`, a `unit` of hours or sessions and one of
      the four time ranges. */
  predicate IsGoalRecord(g: Json) {
    && g != JNull
    && Get(g, "amount").Some? && Get(g, "amount").value.JNum?
    && UnitOf(Get(g, "unit")).Some?
    && TimeRangeOf(Get(g, "timeRange")).Some?
  }

  function DecodeGoal(g: Json): Goal
    requires IsGoalRecord(g)
  {
    Goal(Get(g, "amount").value.n, UnitOf(Get(g, "unit")).value, TimeRangeOf(Get(g, "timeRange")).value)
  }

  /** The goals kept from `raw.goals`: only the first record that passes the filter, and
      nothing when `raw.goals` is not an array. */
  function NormalizeGoals(raw: Json): (goals: seq<Goal>)
    ensures |goals| <= 1
    ensures !(Get(raw, "goals").Some? && Get(raw, "goals").value.JArr?) ==> goals == []
    ensures Get(raw, "goals").Some? && Get(raw, "goals").value.JArr? ==>
      var items := Get(raw, "goals").value.items;
      && (goals == [] <==> forall i | 0 <= i < |items| :: !IsGoalRecord(items[i]))
      && forall i | 0 <= i < |items| && IsGoalRecord(items[i]) && (forall j | 0 <= j < i :: !IsGoalRecord(items[j])) ::
           goals == [DecodeGoal(items[i])]
  {
    match Get(raw, "goals")
    case Some(JArr(items)) =>
      var all := Filter(items, IsGoalRecord);
      FirstKept(items);
      if |all| > 0 then [DecodeGoal(all[0])] else []
    case _ => []
  }

  lemma FirstKept(items: seq<Json>)
    ensures Filter(items, IsGoalRecord) == [] <==> forall i | 0 <= i < |items| :: !IsGoalRecord(items[i])
    ensures forall i | 0 <= i < |items| && IsGoalRecord(items[i]) && (forall j | 0 <= j < i :: !IsGoalRecord(items[j])) ::
      Filter(items, IsGoalRecord) != [] && Filter(items, IsGoalRecord)[0] == items[i]
  {
    forall i | 0 <= i < |items| && IsGoalRecord(items[i]) && (forall j | 0 <= j < i :: !IsGoalRecord(items[j]))
      ensures Filter(items, IsGoalRecord) != [] && Filter(items, IsGoalRecord)[0] == items[i]
    {
      FilterFirst(items, IsGoalRecord, i);
    }
    if forall i | 0 <= i < |items| :: !IsGoalRecord(items[i]) {
      FilterNone(items, IsGoalRecord);
    }
  }

  function KindOf(v: Option<Json>): (k: Kind)
    ensures k == SideQuest <==> v == Some(JStr("sideQuest"))
  {
    if v == Some(JStr("sideQuest")) then SideQuest else Campaign
  }

  /** The category, with the legacy `'alchemist'` read as `'craftsman'` and anything
      unrecognised read as `'warrior'`. */
  function CategoryOf(v: Option<Json>): (c: Category)
    ensures v == Some(JStr("alchemist")) ==> c == Craftsman
    ensures v == Some(JStr("scholar")) ==> c == Scholar
    ensures v == Some(JStr("adventurer")) ==> c == Adventurer
    ensures v == Some(JStr("craftsman")) ==> c == Craftsman
    ensures !(v.Some? && v.value.JStr? && v.value.s in {"alchemist", "scholar", "adventurer", "craftsman"}) ==> c == Warrior
  {
    var name := if v == Some(JStr("alchemist")) then Some(JStr("craftsman")) else v;
    if name == Some(JStr("scholar")) then Scholar
    else if name == Some(JStr("adventurer")) then Adventurer
    else if name == Some(JStr("craftsman")) then Craftsman
    else Warrior
  }

  /** A nullable string field: kept when it is a string, `null` otherwise. */
  function NullableString(raw: Json, key: string): (r: Option<string>)
    ensures r == StringField(raw, key)
  {
    match Get(raw, key)
    case None => None
    case Some(JNull) => None
    case Some(JStr(s)) => Some(s)
    case Some(_) => None
  }

  /** `normalizeQuest(raw)` with `getTodayLocal()` returning `today`. The record must not be
      `null` (reading a field of `null` throws). */
  function Normalize(raw: Json, today: string): (a: Activity)
    requires raw != JNull
    ensures a.id == StringField(raw, "id").GetOr("")
    ensures a.name == StringField(raw, "name").GetOr("")
    ensures a.color == StringField(raw, "color").GetOr(DefaultColor)
    ensures a.goals == NormalizeGoals(raw)
    ensures StringField(raw, "startDate").Some? && StringField(raw, "startDate").value != ""
      ==> a.startDate == StringField(raw, "startDate").value
    ensures !(StringField(raw, "startDate").Some? && StringField(raw, "startDate").value != "")
      ==> a.startDate == today
    ensures a.endDate == StringField(raw, "endDate") && a.notes == StringField(raw, "notes")
    ensures a.kind.Some? && (a.kind == Some(SideQuest) <==> Get(raw, "kind") == Some(JStr("sideQuest")))
    ensures a.category.Some? && a.category.value == CategoryOf(Get(raw, "category"))
    ensures a.archetype.None?
  {
    var startDate := StringField(raw, "startDate");
    Activity(
      StringField(raw, "id").GetOr(""),
      StringField(raw, "name").GetOr(""),
      StringField(raw, "color").GetOr(DefaultColor),
      NormalizeGoals(raw),
      if startDate.Some? && startDate.value != "" then startDate.value else today,
      NullableString(raw, "endDate"),
      Some(KindOf(Get(raw, "kind"))),
      NullableString(raw, "notes"),
      Some(CategoryOf(Get(raw, "category"))),
      None)
  }

  /** The shape `normalizeQuest` always produces: kind and category set, no archetype, a
      non-empty start date and at most one goal whose unit the filter accepts. */
  predicate Normal(a: Activity) {
    && a.kind.Some? && a.category.Some? && a.archetype.None?
    && a.startDate != ""
    && |a.goals| <= 1
    && forall i | 0 <= i < |a.goals| :: a.goals[i].unit != Occurrences
  }

  lemma NormalizeIsNormal(raw: Json, today: string)
    requires raw != JNull && today != ""
    ensures Normal(Normalize(raw, today))
  {
  }

  function EncodeGoal(g: Goal): Json {
    JObj(map["amount" := JNum(g.amount), "unit" := JStr(UnitName(g.unit)), "timeRange" := JStr(RangeName(g.timeRange))])
  }

  function EncodeNullable(s: Option<string>): Json {
    match s
    case Some(v) => JStr(v)
    case None => JNull
  }

  const QuestKeys: set<string> :=
    {"id", "name", "color", "goals", "startDate", "endDate", "notes", "kind", "category", "archetype"}

  /** The value `JSON.stringify` writes for field `key` of a quest: `endDate` and `notes` are
      `null` when not set, and an unset `kind`, `category` or `archetype` is left out. */
  function EncodedField(a: Activity, key: string): (r: Option<Json>)
    ensures key !in QuestKeys ==> r.None?
  {
    if key == "id" then Some(JStr(a.id))
    else if key == "name" then Some(JStr(a.name))
    else if key == "color" then Some(JStr(a.color))
    else if key == "goals" then Some(JArr(Map(a.goals, EncodeGoal)))
    else if key == "startDate" then Some(JStr(a.startDate))
    else if key == "endDate" then Some(EncodeNullable(a.endDate))
    else if key == "notes" then Some(EncodeNullable(a.notes))
    else if key == "kind" && a.kind.Some? then Some(JStr(KindName(a.kind.value)))
    else if key == "category" && a.category.Some? then Some(JStr(CategoryName(a.category.value)))
    else if key == "archetype" && a.archetype.Some? then Some(JStr(CategoryName(a.archetype.value)))
    else None
  }

  /** A quest as `JSON.stringify` writes it and `JSON.parse` reads it back. */
  function Encode(a: Activity): (j: Json)
    ensures j.JObj?
    ensures forall key :: Get(j, key) == EncodedField(a, key)
  {
    JObj(map key | key in QuestKeys && EncodedField(a, key).Some? :: EncodedField(a, key).value)
  }

  lemma GoalRoundTrip(g: Goal)
    requires g.unit != Occurrences
    ensures IsGoalRecord(EncodeGoal(g)) && DecodeGoal(EncodeGoal(g)) == g
  {
  }

  /** Storing a normalised quest and normalising it again gives the same quest, whatever day
      it is read back on. */
  lemma EncodeThenNormalize(a: Activity, today: string)
    requires Normal(a)
    ensures Normalize(Encode(a), today) == a
  {
    var j := Encode(a);
    EncodedStrings(a);
    EncodedChoices(a);
    EncodedGoals(a);
    assert KindOf(Get(j, "kind")) == a.kind.value;
    assert CategoryOf(Get(j, "category")) == a.category.value;
  }

  lemma EncodedStrings(a: Activity)
    ensures StringField(Encode(a), "id") == Some(a.id)
    ensures StringField(Encode(a), "name") == Some(a.name)
    ensures StringField(Encode(a), "color") == Some(a.color)
    ensures StringField(Encode(a), "startDate") == Some(a.startDate)
    ensures StringField(Encode(a), "endDate") == a.endDate
    ensures StringField(Encode(a), "notes") == a.notes
  {
    assert Get(Encode(a), "id") == EncodedField(a, "id");
    assert Get(Encode(a), "name") == EncodedField(a, "name");
    assert Get(Encode(a), "color") == EncodedField(a, "color");
    assert Get(Encode(a), "startDate") == EncodedField(a, "startDate");
    assert Get(Encode(a), "endDate") == EncodedField(a, "endDate");
    assert Get(Encode(a), "notes") == EncodedField(a, "notes");
  }

  lemma EncodedChoices(a: Activity)
    requires a.kind.Some? && a.category.Some?
    ensures Get(Encode(a), "kind") == Some(JStr(KindName(a.kind.value)))
    ensures Get(Encode(a), "category") == Some(JStr(CategoryName(a.category.value)))
  {
    assert Get(Encode(a), "kind") == EncodedField(a, "kind");
    assert Get(Encode(a), "category") == EncodedField(a, "category");
  }

  lemma EncodedGoals(a: Activity)
    requires Normal(a)
    ensures NormalizeGoals(Encode(a)) == a.goals
  {
    assert Get(Encode(a), "goals") == EncodedField(a, "goals") == Some(JArr(Map(a.goals, EncodeGoal)));
    if a.goals != [] {
      assert Map(a.goals, EncodeGoal) == [EncodeGoal(a.goals[0])];
      GoalFromEncoded(Encode(a), a.goals[0]);
    }
  }

  /** A stored list holding one well-formed goal reads back as that goal. */
  lemma GoalFromEncoded(raw: Json, g: Goal)
    requires g.unit != Occurrences
    requires Get(raw, "goals") == Some(JArr([EncodeGoal(g)]))
    ensures NormalizeGoals(raw) == [g]
  {
    GoalRoundTrip(g);
    assert IsGoalRecord([EncodeGoal(g)][0]);
  }

  /** Normalising is idempotent: a normalised quest, stored and read back, is unchanged. */
  lemma NormalizeIdempotent(raw: Json, today: string, later: string)
    requires raw != JNull && today != ""
    ensures Normalize(Encode(Normalize(raw, today)), later) == Normalize(raw, today)
  {
    NormalizeIsNormal(raw, today);
    EncodeThenNormalize(Normalize(raw, today), later);
  }
}
