/** The quest manager (`activity-manager.tsx`): the campaign and side-quest tabs, the order
    quests are listed in, the add form (a small state machine of form fields), the edit form,
    and the fix-up of the quest selected for editing. */
module ActivityManager {
  import opened Wrappers
  import opened Text
  import opened Seqs
  import opened Sorting
  import opened Types
  import opened GoalEditor
  import opened ColorPicker
  import QuestData

  /** The forms' default colour. */
  const DefaultColor: string := "#3b82f6"

  /** Two hours a week. */
  const DefaultGoal: Goal := Goal(2.0, Hours, Week)

  // ---- tabs and order ----

  /** `displayActivities`: the campaigns on the `'campaigns'` tab, the side quests otherwise,
      each as often as in the list and in its order. */
  function ManagerDisplay(activities: seq<Activity>, managerTab: string): (r: seq<Activity>)
    ensures IsSubsequence(r, activities)
    ensures forall a | a in r :: IsCampaign(a) == (managerTab == "campaigns")
    ensures forall a | IsCampaign(a) == (managerTab == "campaigns") :: multiset(r)[a] == multiset(activities)[a]
  {
    KindPartition(activities);
    FilterMultiplicity(activities, IsCampaign);
    FilterMultiplicity(activities, IsSideQuest);
    if managerTab == "campaigns" then Campaigns(activities) else SideQuests(activities)
  }

  /** The position of a quest's first goal's range in day, week, month, year; 4 without goals. */
  function RangeRank(a: Activity): (r: nat)
    ensures r <= 4
    ensures r == 4 <==> a.goals == []
  {
    if |a.goals| > 0 then RangeIndex(a.goals[0].timeRange) else |TimeRanges|
  }

  /** The campaign comparator: by range rank, then by name under `collate` (`localeCompare`). */
  function CampaignOrder(a: Activity, b: Activity, collate: (string, string) -> int): (r: int)
    ensures RangeRank(a) < RangeRank(b) ==> r < 0
    ensures RangeRank(a) > RangeRank(b) ==> r > 0
    ensures a.goals != [] && b.goals == [] ==> r < 0
    ensures RangeRank(a) == RangeRank(b) ==> r == collate(a.name, b.name)
  {
    if RangeRank(a) != RangeRank(b) then RangeRank(a) - RangeRank(b) else collate(a.name, b.name)
  }

  /** The comparator `sortedActivities` sorts with on tab `managerTab`. */
  function SortComparator(managerTab: string, collate: (string, string) -> int): (Activity, Activity) -> int {
    if managerTab == "sideQuests" then (a: Activity, b: Activity) => collate(a.name, b.name)
    else (a: Activity, b: Activity) => CampaignOrder(a, b, collate)
  }

  /** `sortedActivities`: a sorted copy of the displayed list, holding the same quests. */
  function SortedActivities(display: seq<Activity>, managerTab: string, collate: (string, string) -> int): (r: seq<Activity>)
    ensures multiset(r) == multiset(display) && |r| == |display|
  {
    SortBy(display, SortComparator(managerTab, collate))
  }

  /** `localeCompare` orders the names of `xs` as a total preorder does. */
  ghost predicate CollationConsistent(collate: (string, string) -> int, xs: seq<Activity>) {
    ConsistentOn((a: Activity, b: Activity) => collate(a.name, b.name), xs)
  }

  /** Ranking first and breaking ties by name keeps the comparator consistent. */
  lemma CampaignOrderConsistent(collate: (string, string) -> int, xs: seq<Activity>)
    requires CollationConsistent(collate, xs)
    ensures ConsistentOn(SortComparator("campaigns", collate), xs)
  {
    var cmp := SortComparator("campaigns", collate);
    var byName := (a: Activity, b: Activity) => collate(a.name, b.name);
    forall a, b | a in xs && b in xs
      ensures cmp(a, b) <= 0 <==> cmp(b, a) >= 0
    {
      assert byName(a, b) <= 0 <==> byName(b, a) >= 0;
    }
    forall a, b, c | a in xs && b in xs && c in xs && cmp(a, b) <= 0 && cmp(b, c) <= 0
      ensures cmp(a, c) <= 0
    {
      if RangeRank(a) == RangeRank(b) == RangeRank(c) {
        assert byName(a, b) <= 0 && byName(b, c) <= 0;
      }
    }
  }

  /** Campaigns come by range (day, week, month, year, goal-less last), and by name within a
      range. */
  lemma CampaignsSorted(display: seq<Activity>, collate: (string, string) -> int)
    requires CollationConsistent(collate, display)
    ensures var s := SortedActivities(display, "campaigns", collate);
      forall i, j | 0 <= i < j < |s| ::
        && RangeRank(s[i]) <= RangeRank(s[j])
        && (RangeRank(s[i]) == RangeRank(s[j]) ==> collate(s[i].name, s[j].name) <= 0)
  {
    CampaignOrderConsistent(collate, display);
    SortBySorted(display, SortComparator("campaigns", collate));
  }

  /** Side quests come by name alone. */
  lemma SideQuestsSorted(display: seq<Activity>, collate: (string, string) -> int)
    requires CollationConsistent(collate, display)
    ensures var s := SortedActivities(display, "sideQuests", collate);
      forall i, j | 0 <= i < j < |s| :: collate(s[i].name, s[j].name) <= 0
  {
    assert SortComparator("sideQuests", collate) == (a: Activity, b: Activity) => collate(a.name, b.name);
    SortBySorted(display, SortComparator("sideQuests", collate));
  }

  // ---- goal updates ----

  /** `{ ...goal, [field]: value }`: the changed field takes the new value, the others stay. */
  function ApplyChange(goal: Goal, change: GoalChange): (g: Goal)
    ensures change.AmountTo? ==> g.amount == change.amount && g.unit == goal.unit && g.timeRange == goal.timeRange
    ensures change.UnitTo? ==> g.unit == change.unit && g.amount == goal.amount && g.timeRange == goal.timeRange
    ensures change.RangeTo? ==> g.timeRange == change.timeRange && g.amount == goal.amount && g.unit == goal.unit
  {
    match change
    case AmountTo(v) => goal.(amount := v)
    case UnitTo(u) => goal.(unit := u)
    case RangeTo(r) => goal.(timeRange := r)
  }

  /** The add form's `handleUpdateGoal`: a single goal, the previous first one (or the default)
      with one field replaced. */
  function UpdateGoals(prev: seq<Goal>, change: GoalChange): (goals: seq<Goal>)
    ensures |goals| == 1
    ensures var base := if prev == [] then DefaultGoal else prev[0];
      && (change.AmountTo? ==>
            goals[0].amount == change.amount && goals[0].unit == base.unit && goals[0].timeRange == base.timeRange)
      && (change.UnitTo? ==>
            goals[0].unit == change.unit && goals[0].amount == base.amount && goals[0].timeRange == base.timeRange)
      && (change.RangeTo? ==>
            goals[0].timeRange == change.timeRange && goals[0].amount == base.amount && goals[0].unit == base.unit)
  {
    [ApplyChange(if prev == [] then DefaultGoal else prev[0], change)]
  }

  /** Repeating a change changes nothing more, and changes of different fields commute. */
  lemma UpdateGoalsLaws(prev: seq<Goal>, c: GoalChange, d: GoalChange)
    ensures UpdateGoals(UpdateGoals(prev, c), c) == UpdateGoals(prev, c)
    ensures (c.AmountTo? != d.AmountTo? || c.UnitTo? != d.UnitTo?) ==>
      UpdateGoals(UpdateGoals(prev, c), d) == UpdateGoals(UpdateGoals(prev, d), c)
  {
  }

  // ---- the add form ----

  /** The add form's fields, each a `useState` of the manager, and whether its modal is open. */
  datatype AddFields = AddFields(name: string, notes: string, category: Category, color: string,
                                 goals: seq<Goal>, startDate: string, endDate: Option<string>, open: bool)

  /** The fields' initial values (also what `resetAddForm` restores), on day `today`. */
  function InitialAddFields(today: string): AddFields {
    AddFields("", "", Warrior, DefaultColor, [DefaultGoal], today, None, false)
  }

  /** What `handleAddSubmit` hands to `onAddQuest`, or None when the name is blank. A side quest
      gets no goals, today's start, no end and its trimmed notes (null when blank); a campaign
      gets the form's goals and dates, an empty end date read as null, and no notes. */
  function AddFormData(f: AddFields, managerTab: string, today: string): (r: Option<NewQuestData>)
    ensures r.None? <==> AllWhiteSpace(f.name)
    ensures r.Some? ==>
      && r.value.name == Trim(f.name) && r.value.name != ""
      && r.value.color == f.color && r.value.category == Some(f.category) && r.value.archetype.None?
    ensures r.Some? && managerTab != "campaigns" ==>
      && r.value.kind == Some(SideQuest) && r.value.goals == Some([])
      && r.value.startDate == Some(today) && r.value.endDate.None?
      && r.value.notes == (if AllWhiteSpace(f.notes) then None else Some(Trim(f.notes)))
    ensures r.Some? && managerTab == "campaigns" ==>
      && r.value.kind == Some(Campaign) && r.value.goals == Some(f.goals)
      && r.value.startDate == Some(f.startDate) && r.value.notes.None?
      && (r.value.endDate.None? <==> f.endDate.None? || f.endDate == Some(""))
      && (r.value.endDate.Some? ==> r.value.endDate == f.endDate)
  {
    if Trim(f.name) == "" then None
    else if managerTab != "campaigns" then
      Some(NewQuestData(Trim(f.name), f.color, Some([]), Some(today), None, Some(SideQuest),
                        if Trim(f.notes) == "" then None else Some(Trim(f.notes)), Some(f.category), None))
    else
      Some(NewQuestData(Trim(f.name), f.color, Some(f.goals), Some(f.startDate),
                        if f.endDate == Some("") then None else f.endDate, Some(Campaign), None, Some(f.category), None))
  }

  /** The fields after a successful submit: the modal closes; a side quest clears its name, notes
      and category; a campaign clears its name and category and resets colour, goals and dates,
      keeping the notes. */
  function AfterAdd(f: AddFields, managerTab: string, today: string): (g: AddFields)
    ensures !g.open && g.name == "" && g.category == Warrior
    ensures managerTab != "campaigns" ==>
      g == f.(name := "", notes := "", category := Warrior, open := false)
    ensures managerTab == "campaigns" ==>
      g == InitialAddFields(today).(notes := f.notes)
  {
    if managerTab != "campaigns" then f.(name := "", notes := "", category := Warrior, open := false)
    else AddFields("", f.notes, Warrior, DefaultColor, [DefaultGoal], today, None, false)
  }

  /** A quest added from a tab, once the store has appended it, is listed last on that tab. */
  lemma AddedQuestListedOnTab(activities: seq<Activity>, f: AddFields, managerTab: string, today: string, id: string)
    requires managerTab == "campaigns" || managerTab == "sideQuests"
    requires AddFormData(f, managerTab, today).Some?
    ensures var q := QuestData.NewQuest(AddFormData(f, managerTab, today).value, id, today);
      ManagerDisplay(activities + [q], managerTab) == ManagerDisplay(activities, managerTab) + [q]
  {
    var q := QuestData.NewQuest(AddFormData(f, managerTab, today).value, id, today);
    FilterAppend(activities, [q], IsCampaign);
    FilterAppend(activities, [q], IsSideQuest);
    assert [q][..0] == [];
  }

  /** The quest chosen for editing after the effect runs: while the edit modal is open over a
      non-empty list, a selection that is empty or not listed becomes the first listed quest. */
  function FixSelection(editOpen: bool, display: seq<Activity>, selected: Option<string>): (r: Option<string>)
    ensures !editOpen || display == [] ==> r == selected
    ensures editOpen && display != [] ==> exists i | 0 <= i < |display| :: r == Some(display[i].id)
    ensures (editOpen && display != [] && selected.Some? && selected.value != ""
             && exists i | 0 <= i < |display| :: display[i].id == selected.value) ==> r == selected
    ensures (editOpen && display != [] && !(selected.Some? && selected.value != ""
             && exists i | 0 <= i < |display| :: display[i].id == selected.value)) ==> r == Some(display[0].id)
  {
    if editOpen && |display| > 0 then
      var inList := selected.Some? && selected.value != "" && exists i | 0 <= i < |display| :: display[i].id == selected.value;
      if inList then selected else Some(display[0].id)
    else selected
  }

  /** Running the effect again changes nothing: the selection has settled. */
  lemma FixSelectionSettles(editOpen: bool, display: seq<Activity>, selected: Option<string>)
    requires forall i | 0 <= i < |display| :: display[i].id != ""
    ensures FixSelection(editOpen, display, FixSelection(editOpen, display, selected)) == FixSelection(editOpen, display, selected)
  {
  }

  /** The manager's state: the add form, the edit modal, the selected quest and the tab. */
  class ManagerForm {
    var add: AddFields
    var editModalOpen: bool
    var selected: Option<string>
    var managerTab: string

    /** The initial state, on day `today`. */
    constructor (today: string)
      ensures add == InitialAddFields(today)
      ensures !editModalOpen && selected.None? && managerTab == "campaigns"
    {
      add := InitialAddFields(today);
      editModalOpen, selected, managerTab := false, None, "campaigns";
    }

    /** `handleUpdateGoal`. */
    method UpdateGoal(change: GoalChange)
      modifies this
      ensures add == old(add).(goals := UpdateGoals(old(add).goals, change))
      ensures editModalOpen == old(editModalOpen) && selected == old(selected) && managerTab == old(managerTab)
    {
      add := add.(goals := UpdateGoals(add.goals, change));
    }

    /** The hex text box: the colour changes only when the box accepts the text. */
    method SetColorText(text: string)
      modifies this
      ensures AcceptHexText(text, DefaultColor).Some? ==> add == old(add).(color := AcceptHexText(text, DefaultColor).value)
      ensures AcceptHexText(text, DefaultColor).None? ==> add == old(add)
      ensures editModalOpen == old(editModalOpen) && selected == old(selected) && managerTab == old(managerTab)
    {
      var accepted := AcceptHexText(text, DefaultColor);
      if accepted.Some? {
        add := add.(color := accepted.value);
      }
    }

    /** `handleAddSubmit`: hands the new quest over and updates the form (None: nothing happens
        for a blank name). */
    method SubmitAdd(today: string) returns (data: Option<NewQuestData>)
      modifies this
      ensures data == AddFormData(old(add), old(managerTab), today)
      ensures add == if data.None? then old(add) else AfterAdd(old(add), old(managerTab), today)
      ensures editModalOpen == old(editModalOpen) && selected == old(selected) && managerTab == old(managerTab)
    {
      data := AddFormData(add, managerTab, today);
      if data.Some? {
        add := AfterAdd(add, managerTab, today);
      }
    }

    /** `resetAddForm`: every add-form field back to its initial value, modal closed. */
    method ResetAddForm(today: string)
      modifies this
      ensures add == InitialAddFields(today)
      ensures editModalOpen == old(editModalOpen) && selected == old(selected) && managerTab == old(managerTab)
    {
      add := InitialAddFields(today);
    }

    /** The selection effect, over the current quest list. */
    method SyncSelection(activities: seq<Activity>)
      modifies this
      ensures selected == FixSelection(editModalOpen, ManagerDisplay(activities, managerTab), old(selected))
      ensures add == old(add) && editModalOpen == old(editModalOpen) && managerTab == old(managerTab)
    {
      var display := ManagerDisplay(activities, managerTab);
      if editModalOpen && |display| > 0 {
        var inList := selected.Some? && selected.value != "" && exists i | 0 <= i < |display| :: display[i].id == selected.value;
        if !inList {
          selected := Some(display[0].id);
        }
      }
    }
  }

  // ---- the edit form ----

  /** What the edit form's `handleSubmit` hands to `onSave`. A side quest saves its name, trimmed
      notes (null when blank), colour and category; a campaign saves its name, colour, single
      goal, dates and category. */
  function EditUpdate(name: string, notes: string, category: Category, color: string, goal: Goal,
                      startDate: string, endDate: Option<string>, isSideQuest: bool): (u: QuestUpdate)
    ensures u.name == Some(Trim(name)) && u.color == Some(color) && u.category == Some(Some(category))
    ensures u.kind.None? && u.archetype.None?
    ensures isSideQuest ==>
      && u.notes == Some(if AllWhiteSpace(notes) then None else Some(Trim(notes)))
      && u.goals.None? && u.startDate.None? && u.endDate.None?
    ensures !isSideQuest ==>
      && u.goals == Some([goal]) && u.startDate == Some(startDate) && u.endDate == Some(endDate)
      && u.notes.None?
  {
    if isSideQuest then
      QuestUpdate(Some(Trim(name)), Some(color), None, None, None, None,
                  Some(if Trim(notes) == "" then None else Some(Trim(notes))), Some(Some(category)), None)
    else
      QuestUpdate(Some(Trim(name)), Some(color), Some([goal]), Some(startDate), Some(endDate), None,
                  None, Some(Some(category)), None)
  }

  /** The fields of `EditQuestForm`, started from the quest being edited. */
  class EditQuestForm {
    var name: string
    var notes: string
    var category: Category
    var color: string
    var goal: Goal
    var startDate: string
    var endDate: Option<string>

    constructor (quest: Activity)
      ensures name == quest.name && notes == quest.notes.GetOr("") && category == quest.category.GetOr(Warrior)
      ensures color == quest.color && goal == (if quest.goals != [] then quest.goals[0] else DefaultGoal)
      ensures startDate == quest.startDate && endDate == quest.endDate
    {
      name, notes, category, color := quest.name, quest.notes.GetOr(""), quest.category.GetOr(Warrior), quest.color;
      goal := if quest.goals != [] then quest.goals[0] else DefaultGoal;
      startDate, endDate := quest.startDate, quest.endDate;
    }

    /** The edit form's `handleUpdateGoal`. */
    method UpdateGoal(change: GoalChange)
      modifies this
      ensures goal == ApplyChange(old(goal), change)
      ensures name == old(name) && notes == old(notes) && category == old(category) && color == old(color)
      ensures startDate == old(startDate) && endDate == old(endDate)
    {
      goal := ApplyChange(goal, change);
    }

    /** The update the form saves. */
    function Submitted(isSideQuest: bool): QuestUpdate
      reads this
    {
      EditUpdate(name, notes, category, color, goal, startDate, endDate, isSideQuest)
    }
  }

  /** Saving an untouched edit form leaves a campaign with a trimmed name, one goal and a
      category as it was. */
  lemma UntouchedCampaignEditKeepsQuest(q: Activity)
    requires Trim(q.name) == q.name && |q.goals| == 1 && q.category.Some?
    ensures QuestData.Merge(q, EditUpdate(q.name, q.notes.GetOr(""), q.category.value, q.color,
                                          q.goals[0], q.startDate, q.endDate, false)) == q
  {
    assert [q.goals[0]] == q.goals;
  }

  /** The same for a side quest whose notes are trimmed and not blank (blank notes are saved
      as null). */
  lemma UntouchedSideQuestEditKeepsQuest(q: Activity)
    requires Trim(q.name) == q.name && q.category.Some?
    requires q.notes.None? || (Trim(q.notes.value) == q.notes.value && q.notes.value != "")
    ensures QuestData.Merge(q, EditUpdate(q.name, q.notes.GetOr(""), q.category.value, q.color,
                                          DefaultGoal, q.startDate, q.endDate, true)) == q
  {
    if q.notes.None? {
      assert AllWhiteSpace("");
    }
  }
}
