# Life Quests core, modelled in Dafny

Life Quests is a browser quest tracker. A *quest* (an `Activity`) is either a **campaign**,
with a single goal such as "2 hours per week", or a **side quest**, with no goal. The user
logs sessions against quests. Quests and logs live in one store, which persists them to
local storage as JSON.

This project models that store and the views built on it:

- **Day strings** (`date.ts`): `getTodayLocal` writes `YYYY-MM-DD`, and `parseLocalDate` reads
  it back as local midnight. Proved: the round trip gives back the same day.
- **Quest normalisation** (`normalizeQuest.ts`): every stored field is checked and replaced by
  its default when it is malformed. Proved: normalising is idempotent, and a normalised quest
  survives being stored and read back.
- **The quest store** (`useQuestData.ts`):
  - a class with the two lists it holds (`quests`, `logs`);
  - the load fallbacks and the legacy-log normaliser;
  - the five updaters: add, update, remove, add log and delete log.

  Each updater states the new content of the list it replaces and leaves the other list alone.
  Note that `addQuest` does not copy the form's `category`. It does set `archetype` to warrior.
  The model keeps this behaviour (`QuestData.NewQuest`).
- **Goal-period progress** (`activity-stats.tsx`):
  - the bounds of the current day, week (Sunday to Saturday), month or year;
  - the logs that overlap that period;
  - the split of the tab's quests into completed and current;
  - the clamped percentage bar.

  Proved: the period holds the current instant, and the week, month and year have the right
  lengths. The split is a partition, and the bar shows 100% exactly when the quest is listed
  as completed.
- **The older statistics view** (`activity-stats.jsx`):
  - the time-frame window;
  - the hours per date and quest;
  - the chart points;
  - the hours per quest name, their total, and the breakdown sorted by hours with each share.

  Proved: each cell is the sum of its logs' hours. The totals hold the hours of the last quest
  with that name. The breakdown runs from most hours to fewest, and every share lies between
  0 and 100.
- **Recent logs** (`recent-logs.tsx`): the logs sorted newest first, with ties broken by id.
  At most 50 are shown, and orphaned logs are dropped.
- **The quest manager** (`activity-manager.tsx`):
  - the campaign and side-quest tabs and their sort order;
  - the add form, a class whose state is the form's fields, with submit and reset;
  - the edit form and the update it saves;
  - the effect that repairs the selected quest.
- **The goal editor** (`GoalEditor.tsx`) and the **hex colour box** (`ColorPickerRow.tsx` and
  the same rule inside the manager's forms).

Some runtime behaviour is passed in as parameters, because its results are not computed here
(the `Runtime` datatype and the `collate` and `formatDate` parameters):

- `Number.prototype.toString` and `Number(text)`;
- `toISOString` and the ISO-day helper;
- `new Date(text)`;
- `localeCompare`;
- `toLocaleDateString`.

The JavaScript `Date` is the class `Calendar.DateTime`. It holds one time value, and its
`setDate`/`setHours` carry over between months and years as ECMAScript's MakeDay does. A
proleptic Gregorian calendar of day numbers supplies its fields.

NaN is written `None`. Examples are the older view's hours sum once a log has no hours, and
an invalid date, which fails every comparison. A log's hours use one `None` both for a missing
value and for NaN (see Progress.SumHours under "Left out").

## Model

| member | source | states |
|---|---|---|
| DateUtil.PadStart2 | src/app/utils/date.ts:23-24 | a string of length two or more is unchanged; a shorter one is padded on the left with `0` to exactly two characters ending in the original |
| DateUtil.NumberOf | src/app/utils/date.ts:12 | `Number` of a piece: digits read as their value, a blank piece reads as 0, and any value read is not negative (None is NaN) |
| DateUtil.ParseLocalDate | src/app/utils/date.ts:11-14 | a valid date exactly when three numeric fields are read; the result is always a midnight |
| DateUtil.ParseFormattedFields | src/app/utils/date.ts:12 | splitting and reading a formatted day gives back the year, month and day it was written from |
| DateUtil.FormatThenParse | src/app/utils/date.ts:11-26 | for years from 100 on and a valid month and day, parsing the formatted string gives midnight of that day, whose year, month and day are the ones written |
| DateUtil.TodayParsesToToday | src/app/utils/date.ts:20-26 | today's string parses back to midnight of today |
| DateUtil.FormatShape | src/app/utils/date.ts:20-25 | with a four-digit year the string is ten characters, with dashes at positions 4 and 7 |
| Calendar.DateTime.constructor | src/app/components/activity-stats.tsx:47 | `new Date(y, m, d, h, mi, s, ms)` is the MakeDay/MakeDate time value, with years 0 to 99 read as 19xx |
| Calendar.DateTime.SetDate | src/app/components/activity-stats.tsx:26 | `setDate(k)` moves to day `k` of the current month (carrying into other months), keeps the time of day, and shifts the day by `k - getDate()` |
| Calendar.DateTime.SetHours | src/app/components/activity-stats.tsx:27 | `setHours` keeps the day and sets the time of day |
| NormalizeQuest.StringField | src/app/data/normalizeQuest.ts:8-10 | a field is taken exactly when it is present and is a string |
| NormalizeQuest.NormalizeGoals | src/app/data/normalizeQuest.ts:13-22 | at most one goal; none when `goals` is not an array or no record passes the filter; otherwise the first record that passes |
| NormalizeQuest.KindOf | src/app/data/normalizeQuest.ts:11-12 | side quest exactly when the stored kind is `'sideQuest'`, campaign otherwise |
| NormalizeQuest.CategoryOf | src/app/data/normalizeQuest.ts:39-43 | `'alchemist'` becomes craftsman, the three other known names are kept, anything else is warrior |
| NormalizeQuest.NullableString | src/app/data/normalizeQuest.ts:27-38 | `endDate` and `notes` are kept when they are strings and are null otherwise |
| NormalizeQuest.Normalize | src/app/data/normalizeQuest.ts:7-46 | every field of the result: id, name and colour with their defaults, the filtered goals, a non-empty start date or today, nullable end date and notes, kind and category always set |
| NormalizeQuest.NormalizeIsNormal | src/app/data/normalizeQuest.ts:7-46 | the result always has a kind, a category, a non-empty start date and at most one goal, in hours or sessions |
| NormalizeQuest.Encode | src/app/hooks/useQuestData.ts:70 | `JSON.stringify` then `JSON.parse` of a quest is an object holding id, name, colour, goals and start date, end date and notes (`null` when unset), and kind, category and archetype exactly when set |
| NormalizeQuest.GoalRoundTrip | src/app/data/normalizeQuest.ts:14-20 | a stored goal in hours or sessions passes the filter and reads back unchanged |
| NormalizeQuest.EncodeThenNormalize | src/app/data/normalizeQuest.ts:7-46 | a quest in normal form, stored and normalised again, is unchanged whatever day it is read on |
| NormalizeQuest.NormalizeIdempotent | src/app/data/normalizeQuest.ts:7-46 | normalising, storing and normalising again gives the first result |
| QuestData.NoonOfIsNoon | src/app/hooks/useQuestData.ts:14 | the re-built date is noon of the same day, for years from 100 on |
| QuestData.SubmittedAtOf | src/app/hooks/useQuestData.ts:9-15 | a stored `submittedAt` is kept as text; otherwise noon of the stored `date` (or of today) as an ISO string, and a throw when that date is invalid |
| QuestData.OptionalText | src/app/hooks/useQuestData.ts:20-21 | `title`/`notes` are kept exactly when present and not `''` |
| QuestData.NormalizeLog | src/app/hooks/useQuestData.ts:8-24 | throws exactly for `null` or an invalid fallback date; otherwise id and activity id as strings, hours only when present (as `Number`), the optional texts, the `submittedAt`, and no `date` |
| QuestData.DefaultQuests | src/app/hooks/useQuestData.ts:26-31 | four starter quests with ids 1 to 4, no goals, starting today, no end date and no kind |
| QuestData.NormalizeAll | src/app/hooks/useQuestData.ts:39 | the stored list normalised item by item, same length |
| QuestData.LoadQuests | src/app/hooks/useQuestData.ts:33-43 | the normalised list when storage holds an array without `null` items; the starter quests in every other case |
| QuestData.NormalizeLogs | src/app/hooks/useQuestData.ts:61-62 | succeeds exactly when every item normalises, item by item |
| QuestData.LoadLogs | src/app/hooks/useQuestData.ts:54-67 | only logs submitted today or later; empty when nothing usable is stored or an item throws; otherwise the normalised logs filtered by that test |
| QuestData.NewQuest | src/app/hooks/useQuestData.ts:80-90 | the appended quest: the form's fields, with no goals, today, campaign and warrior archetype as defaults and no category |
| QuestData.Merge | src/app/hooks/useQuestData.ts:96 | `{ ...q, ...update }`: each field the update carries replaces the quest's, every other field and the id stay |
| QuestData.UpdateQuests | src/app/hooks/useQuestData.ts:94-98 | same length and ids; quests with the id are merged, the others are unchanged |
| QuestData.UpdateIdempotent | src/app/hooks/useQuestData.ts:94-98 | applying an update twice equals applying it once |
| QuestData.RemoveQuests | src/app/hooks/useQuestData.ts:100-102 | no quest with the id remains, every other quest remains as often as before, order kept |
| QuestData.RemoveIdempotent | src/app/hooks/useQuestData.ts:100-102 | removing twice equals removing once |
| QuestData.RemoveLogs | src/app/hooks/useQuestData.ts:127-129 | no log with the id remains, every other log remains as often as before, order kept |
| QuestData.NonEmpty | src/app/hooks/useQuestData.ts:119-120 | a text argument is stored exactly when given and not empty |
| QuestData.NewLog | src/app/hooks/useQuestData.ts:112-122 | the appended log: quest id, hours, the non-empty texts, the given `submittedAt` or now |
| QuestData.QuestStore.constructor | src/app/hooks/useQuestData.ts:52-67 | the initial quests and logs are the loaded ones |
| QuestData.QuestStore.AddQuest | src/app/hooks/useQuestData.ts:77-92 | the quests gain the new quest at the end; logs unchanged |
| QuestData.QuestStore.UpdateQuest | src/app/hooks/useQuestData.ts:94-98 | the quests become the updated list; logs unchanged |
| QuestData.QuestStore.RemoveQuest | src/app/hooks/useQuestData.ts:100-102 | the quests lose the id; logs, including that quest's, unchanged |
| QuestData.QuestStore.AddLog | src/app/hooks/useQuestData.ts:104-125 | the logs gain the new log at the end; quests unchanged |
| QuestData.QuestStore.DeleteLog | src/app/hooks/useQuestData.ts:127-129 | the logs lose the id; quests unchanged |
| QuestData.SaveThenLoad | src/app/hooks/useQuestData.ts:69-71 | normalised quests written by the persistence effect load back unchanged |
| QuestData.OccurrencesGoalDropped | src/app/data/normalizeQuest.ts:18 | a goal in occurrences (what the editor's toggle gives) is lost on the next load |
| Types.ActivityWithId | src/app/components/recent-logs.tsx:49 | `find` by id: found exactly when some quest has the id, and then it is a quest of the list with that id |
| Types.KindPartition | src/app/components/activity-manager.tsx:46-47 | campaigns and side quests split the list: each quest is in exactly one, and both keep the order |
| Progress.StartOfWeek | src/app/components/activity-stats.tsx:23-29 | a new date at midnight of the Sunday on or before the given day |
| Progress.EndOfWeek | src/app/components/activity-stats.tsx:31-36 | a new date at 23:59:59.999 six days after that Sunday |
| Progress.DayBounds | src/app/components/activity-stats.tsx:45-49 | midnight to the last millisecond of today |
| Progress.MonthBounds | src/app/components/activity-stats.tsx:55-59 | the 1st of the month to the last millisecond of day 0 of the next month |
| Progress.YearBounds | src/app/components/activity-stats.tsx:60-64 | 1 January to the last millisecond of 31 December |
| Progress.GetCurrentPeriodBounds | src/app/components/activity-stats.tsx:38-71 | the bounds for each tab; any other tab name gives the day |
| Progress.WeekPeriod | src/app/components/activity-stats.tsx:50-54 | the week runs Sunday to Saturday, seven days that hold today |
| Progress.MonthPeriod | src/app/components/activity-stats.tsx:55-59 | the month runs from its 1st to its last day, 28 to 31 days, February has 29 exactly in leap years |
| Progress.YearPeriod | src/app/components/activity-stats.tsx:60-64 | 1 January to 31 December of this year, all its days |
| Progress.DayPeriod | src/app/components/activity-stats.tsx:65-69 | the day tab, and any unknown tab, give today alone |
| Progress.BoundsHoldNow | src/app/components/activity-stats.tsx:38-71 | whatever the tab, start ≤ now ≤ end |
| Progress.OverlapIsDayInPeriod | src/app/components/activity-stats.tsx:104-108 | a log day overlaps the bounds exactly when it lies between the period's first and last day |
| Progress.CountsIffDayInPeriod | src/app/components/activity-stats.tsx:104-108 | a log with a valid date counts exactly when it belongs to the quest and its day is in the period |
| Progress.PeriodLogs | src/app/components/activity-stats.tsx:104-108 | exactly the logs that count toward the quest in the period, in their order, each as often as in the list |
| Progress.SumHoursAppend | src/app/components/activity-stats.tsx:112 | the hours of two lists of logs add up |
| Progress.SumHoursNonNegative | src/app/components/activity-stats.tsx:112 | with no negative hours the sum is not negative |
| Progress.LoggedGrows | src/app/components/activity-stats.tsx:110-113 | one more log adds its hours (0 when missing) for an hours goal, and 1 for any other |
| Progress.QuestsInTab | src/app/components/activity-stats.tsx:94-97 | exactly the shown quests whose first goal has the tab's range, in their order, each as often as shown |
| Progress.Classify | src/app/components/activity-stats.tsx:89-122 | the loop's completed and current lists are the quests of the tab whose logged amount reaches, or does not reach, the target |
| Progress.ClassificationPartitions | src/app/components/activity-stats.tsx:115-118 | every quest of the tab is in exactly one list, both keep the order, completed exactly when logged ≥ target |
| Progress.Percent | src/app/components/activity-stats.tsx:139 | 0 for a non-positive target; otherwise at most 100, exactly 100 when logged ≥ target, and the plain ratio below that |
| Progress.GetProgress | src/app/components/activity-stats.tsx:124-142 | the logged amount is the first goal's amount logged over the logs counting in the tab's period; the target is the first goal's amount, `hrs` exactly for hours goals, and the percentage is of that logged amount |
| Progress.ProgressMatchesClassification | src/app/components/activity-stats.tsx:115-139 | with a positive target, the bar shows 100% exactly when the quest is listed as completed |
| Progress.DisplayActivities | src/app/components/activity-stats.tsx:83-87 | the campaigns on the `campaignObjectives` tab and the side quests on any other, in their order, each as often as in the list |
| Progress.UnitLabel | src/app/components/activity-stats.tsx:74 | singular exactly when the amount is 1, "hour(s)" exactly for hours goals |
| GoalEditor.CycleUnit | src/app/components/GoalEditor.tsx:15-17 | hours become occurrences, everything else becomes hours |
| GoalEditor.CycleUnitTwice | src/app/components/GoalEditor.tsx:15-17 | two clicks return hours or occurrences to themselves and turn sessions into occurrences |
| GoalEditor.RangeIndex | src/app/components/GoalEditor.tsx:20 | the index of the range in day, week, month, year |
| GoalEditor.CycleTimeRange | src/app/components/GoalEditor.tsx:19-22 | the next range's index is one more, modulo 4 |
| GoalEditor.CycleTimeRangeOrder | src/app/components/GoalEditor.tsx:19-22 | day, week, month, year, then day again: four clicks and no fewer return a range to itself |
| GoalEditor.DecreaseAmount | src/app/components/GoalEditor.tsx:41 | never below 1; one less from 2 upward |
| GoalEditor.IncreaseAmount | src/app/components/GoalEditor.tsx:58 | exactly one more |
| GoalEditor.ButtonsUndo | src/app/components/GoalEditor.tsx:41-58 | the two buttons undo each other above the floor of 1 |
| GoalEditor.TypedAmount | src/app/components/GoalEditor.tsx:52 | at least 1; a typed number of 1 or more is kept, and NaN, 0 or less read as 1 |
| GoalEditor.ChangesKeepAmountPositive | src/app/components/GoalEditor.tsx:41-58 | every amount control keeps the amount at 1 or more |
| ColorPicker.AcceptHexText | src/app/components/ColorPickerRow.tsx:30-32 | passes a colour on exactly when the trimmed text is `#` and six hex digits (kept) or blank (the default) |
| ColorPicker.AcceptedIsHexColor | src/app/components/ColorPickerRow.tsx:30-32 | with a well-formed default, whatever is passed on is a well-formed colour |
| ColorPicker.AcceptedColorIsStable | src/app/components/ColorPickerRow.tsx:30-32 | typing back the accepted colour gives the same colour |
| ColorPicker.RowPassesHexColors | src/app/components/ColorPickerRow.tsx:3-32 | the row only ever passes on six-digit hex colours |
| ActivityManager.ManagerDisplay | src/app/components/activity-manager.tsx:44-49 | the campaigns on the `campaigns` tab and the side quests on any other, in their order, each as often as in the list |
| ActivityManager.RangeRank | src/app/components/activity-manager.tsx:64-67 | rank 0 to 3 for day to year, and 4 exactly when the quest has no goal |
| ActivityManager.CampaignOrder | src/app/components/activity-manager.tsx:64-69 | the lower range rank first, so a quest with a goal comes before one without; equal ranks compare names with `localeCompare` |
| ActivityManager.SortedActivities | src/app/components/activity-manager.tsx:59-71 | the sorted copy holds the same quests |
| ActivityManager.CampaignOrderConsistent | src/app/components/activity-manager.tsx:64-69 | ranking first and breaking ties by name is a consistent order |
| ActivityManager.CampaignsSorted | src/app/components/activity-manager.tsx:59-71 | campaigns come by range rank, and by name within a rank |
| ActivityManager.SideQuestsSorted | src/app/components/activity-manager.tsx:61-62 | side quests come by name |
| ActivityManager.ApplyChange | src/app/components/activity-manager.tsx:75 | the changed field takes the new value and the other two stay |
| ActivityManager.UpdateGoals | src/app/components/activity-manager.tsx:73-77 | the add form always holds exactly one goal: the first goal held before (the default two hours a week when there is none) with the changed field set and the other two kept |
| ActivityManager.UpdateGoalsLaws | src/app/components/activity-manager.tsx:73-77 | repeating a change does nothing more, and changes to different fields commute |
| ActivityManager.AddFormData | src/app/components/activity-manager.tsx:79-106 | nothing for a blank name; the trimmed name; a side quest gets no goals, today, no end date and trimmed notes or null; a campaign gets the form's goals and dates, an empty end date as null, and no notes |
| ActivityManager.AfterAdd | src/app/components/activity-manager.tsx:94-114 | the modal closes and the name and category clear; a side quest also clears its notes, and a campaign resets everything but its notes |
| ActivityManager.AddedQuestListedOnTab | src/app/components/activity-manager.tsx:46-47 | a quest added from a tab and appended by the store is listed last on that tab |
| ActivityManager.FixSelection | src/app/components/activity-manager.tsx:52-57 | while editing a non-empty list the selection is always a listed quest: a listed selection is kept, and a missing, empty or unlisted one becomes the first listed quest; otherwise it is unchanged |
| ActivityManager.FixSelectionSettles | src/app/components/activity-manager.tsx:52-57 | running the effect again changes nothing |
| ActivityManager.ManagerForm.constructor | src/app/components/activity-manager.tsx:30-41 | the initial fields: empty name and notes, warrior, the default colour and goal, today, no end date, modals closed, nothing selected, campaigns tab |
| ActivityManager.ManagerForm.UpdateGoal | src/app/components/activity-manager.tsx:73-77 | only the goals change |
| ActivityManager.ManagerForm.SetColorText | src/app/components/activity-manager.tsx:351-354 | the colour changes to the accepted text and to nothing else; rejected text changes nothing |
| ActivityManager.ManagerForm.SubmitAdd | src/app/components/activity-manager.tsx:79-115 | hands over the add-form data; a blank name changes nothing, otherwise the fields become the after-submit fields |
| ActivityManager.ManagerForm.ResetAddForm | src/app/components/activity-manager.tsx:117-126 | every add-form field back to its initial value, modal closed |
| ActivityManager.ManagerForm.SyncSelection | src/app/components/activity-manager.tsx:52-57 | only the selection changes, to the repaired selection for the tab's list |
| ActivityManager.EditUpdate | src/app/components/activity-manager.tsx:541-548 | the saved update: trimmed name, colour and category always; a side quest adds trimmed notes or null; a campaign adds its single goal and dates; kind and archetype never |
| ActivityManager.EditQuestForm.constructor | src/app/components/activity-manager.tsx:526-535 | fields start from the quest: notes `''` and warrior when missing, the first goal or the default |
| ActivityManager.EditQuestForm.UpdateGoal | src/app/components/activity-manager.tsx:537-539 | only the goal changes, by the one field |
| ActivityManager.UntouchedCampaignEditKeepsQuest | src/app/components/activity-manager.tsx:541-548 | saving an untouched form leaves a campaign with a trimmed name, one goal and a category as it was |
| ActivityManager.UntouchedSideQuestEditKeepsQuest | src/app/components/activity-manager.tsx:541-548 | the same for a side quest whose notes are trimmed and not blank |
| RecentLogs.NewestFirst | src/app/components/recent-logs.tsx:12-16 | 0 when a date is invalid (a NaN difference); the later log first when the times differ; equal times compare the ids the other way round |
| RecentLogs.SortedLogs | src/app/components/recent-logs.tsx:12-16 | the sorted copy holds the same logs |
| RecentLogs.LogOrderConsistent | src/app/components/recent-logs.tsx:12-16 | with valid dates, newest first with the id tie-break is a consistent order |
| RecentLogs.SortedTimesValid | src/app/components/recent-logs.tsx:12-16 | sorting keeps every date valid |
| RecentLogs.SortedNewestFirst | src/app/components/recent-logs.tsx:12-16 | times never increase down the list, and equal times come by id, descending |
| RecentLogs.Rows | src/app/components/recent-logs.tsx:48-50 | each row pairs a shown log with the quest `find` gives for its id |
| RecentLogs.RowsAreMatchedLogs | src/app/components/recent-logs.tsx:48-50 | the rows' logs are exactly the shown logs that have a quest, in order |
| RecentLogs.RecentRows | src/app/components/recent-logs.tsx:48-50 | at most 50 rows, each with one of the logs and its quest |
| RecentLogs.AllMatchedShowsFifty | src/app/components/recent-logs.tsx:48 | with no orphaned logs, exactly 50 rows, or all the logs when there are fewer |
| RecentLogs.HourWord | src/app/components/recent-logs.tsx:65 | "hour" exactly when the hours are 1 |
| LegacyStats.StartOfToday | src/app/components/activity-stats.jsx:21 | midnight of today |
| LegacyStats.SixDaysBefore | src/app/components/activity-stats.jsx:32-33 | midnight six days before the given midnight |
| LegacyStats.FirstOfMonth | src/app/components/activity-stats.jsx:37 | midnight of the 1st of this month |
| LegacyStats.FirstOfYear | src/app/components/activity-stats.jsx:41 | midnight of 1 January |
| LegacyStats.WindowStart | src/app/components/activity-stats.jsx:20-47 | the window's start for each time frame; any other frame starts today |
| LegacyStats.WindowHoldsToday | src/app/components/activity-stats.jsx:26-47 | the window starts on or before today: six days back, the 1st of the month, 1 January, or today |
| LegacyStats.WindowLogs | src/app/components/activity-stats.jsx:49-52 | exactly the logs whose date lies between the start and now, in their order, each as often as in the list |
| LegacyStats.AddHours | src/app/components/activity-stats.jsx:61-64 | the cell becomes NaN exactly when the log has no hours (missing or NaN) |
| LegacyStats.GroupByDate | src/app/components/activity-stats.jsx:54-65 | the loop builds the grid the logs define |
| LegacyStats.CellOfAdd | src/app/components/activity-stats.jsx:56-65 | a log changes its own date-and-quest cell and no other |
| LegacyStats.LogsAtStep | src/app/components/activity-stats.jsx:56-65 | a log joins the logs of its own date and quest |
| LegacyStats.CellGrows | src/app/components/activity-stats.jsx:64 | adding a log's hours to a cell holding a sum gives the sum with that log |
| LegacyStats.GroupedSums | src/app/components/activity-stats.jsx:54-65 | each cell is the sum of the hours of its date's logs for its quest, and is missing when there are none |
| LegacyStats.PointValues | src/app/components/activity-stats.jsx:69-74 | the point's keys are exactly the names of the cells' known quests, and each name holds the hours of the last cell whose quest has that name |
| LegacyStats.ChartData | src/app/components/activity-stats.jsx:67-76 | one point per date, in the grid's order, with the date key, the formatted date and the values of that date's cells |
| LegacyStats.HourTotalIsSum | src/app/components/activity-stats.jsx:80-82 | the total is the sum of the hours when all are present, and NaN otherwise |
| LegacyStats.Totals | src/app/components/activity-stats.jsx:78-83 | the loop builds the totals object |
| LegacyStats.TotalsByName | src/app/components/activity-stats.jsx:78-83 | a name's total is the hours of the last quest with that name, and is missing when no quest has it |
| LegacyStats.SumValues | src/app/components/activity-stats.jsx:88 | the total is known exactly when every value is known, and NaN otherwise |
| LegacyStats.SumValuesBounds | src/app/components/activity-stats.jsx:88 | with known non-negative hours, the total is known and at least each value |
| LegacyStats.MoreHoursFirst | src/app/components/activity-stats.jsx:172 | 0 when a value is NaN; otherwise negative exactly when the first entry has more hours, positive exactly when it has fewer |
| LegacyStats.Breakdown | src/app/components/activity-stats.jsx:171-172 | the sorted entries are the same entries |
| LegacyStats.BreakdownDescending | src/app/components/activity-stats.jsx:171-172 | the breakdown runs from most hours to fewest |
| LegacyStats.Percentage | src/app/components/activity-stats.jsx:175 | 0 unless the total is positive, and then known exactly when the hours are |
| LegacyStats.ShareBounded | src/app/components/activity-stats.jsx:175 | a part of a positive total is between 0 and 100 percent of it |
| LegacyStats.PercentagesBounded | src/app/components/activity-stats.jsx:171-175 | with known hours every entry's share lies between 0 and 100 |
| LegacyStats.Stats | src/app/components/activity-stats.jsx:19-86 | the memo's chart points and totals are those of the logs inside the time frame's window |

## Left out

- Time zones and daylight saving: local time is taken to equal the time value. The 8.64e15 ms limit of `Date` is not modelled.
- Floating point: hours and amounts are `real`, so there is no rounding, `Infinity` or `-0`.
- `Number(text)` is modelled for digit strings and blank text only. Other forms (signs, decimals, exponents, hex) read as NaN in `DateUtil.NumberOf`.
- Runtime services are parameters and are not computed:
  - `localeCompare`;
  - `Number.prototype.toString`;
  - `toISOString`;
  - `new Date(text)`;
  - `toLocaleDateString` and the chart's formatters;
  - the ISO-day helper the store calls, which is not defined in `date.ts`.
- The clock, `crypto.randomUUID` and `localStorage` reads and writes are parameters or values. React rendering, modals and the confirm-remove flow are not modelled.
- `JSON.parse` failures and a missing stored value are the cases of `Stored`. JSON text itself is not modelled.
- Object key order: plain objects are insertion-ordered lists. JavaScript lists integer-like keys first; that is not modelled.
- The chart point's own `date`/`fullDate` keys, which a quest named "date" or "fullDate" would overwrite, are kept apart from the quests' values.
- `Sorting.SortBy` is one stable sort. Stability across engines is not stated, and for inconsistent comparators the exact order an engine produces is not modelled.
- A quest update that sets a key to `undefined` is not modelled (`QuestUpdate` carries set fields only).
- The manager and stats tabs are strings. The form fields for name, notes, dates and category are set directly; they are plain assignments.
- Progress.Classify: requires every log to carry a `date` when the tab has quests, because `parseLocalDate(undefined)` throws; the throw itself is not modelled.
- Progress.GetProgress: requires a first goal (the source's `!`) and dated logs, as for Classify.
- Progress.MonthPeriod: stated for years outside 0 to 99, which the `Date` constructor reads as 19xx. The same holds for Progress.YearPeriod, Progress.DayPeriod, Progress.BoundsHoldNow, LegacyStats.WindowHoldsToday, DateUtil.FormatThenParse, DateUtil.TodayParsesToToday and QuestData.NoonOfIsNoon.
- RecentLogs.SortedNewestFirst: the order is stated only when every date is valid and `localeCompare` is a consistent order on the ids.
- ActivityManager.CampaignsSorted: the order is stated only for a consistent `localeCompare`; the same holds for ActivityManager.SideQuestsSorted.
- LegacyStats.GroupedSums: the sums are stated only when every log has hours. A log without hours makes its cell NaN, and a later log with hours starts that cell again from 0, because `!NaN` holds (LegacyStats.AddHours).
- LegacyStats.BreakdownDescending: the order is stated only for known, non-negative hours; the same holds for LegacyStats.PercentagesBounded.
- NormalizeQuest.Normalize: requires a non-null record, since reading a field of `null` throws. In `loadQuests` that throw selects the starter quests (QuestData.LoadQuests).
- Progress.SumHours: a log's hours are `None` both when missing and when `Number` (on load) or `parseFloat` (in the logger) gives NaN. `log.hours ?? 0` therefore adds 0 for a NaN value, where the source's sum becomes NaN and the quest stays current with a NaN bar. The older view treats both cases as NaN, as the source does (LegacyStats.AddHours).
- NormalizeQuest.Encode: `endDate` and `notes` are optional strings, so a quest without a `notes` key (the starter quests) is written with `notes: null`; an absent key and `null` are not told apart.
- NormalizeQuest.DecodeGoal: a kept goal is rebuilt from its amount, unit and range. Any other keys of the stored goal object, which the source keeps, are dropped.
- Text.Compare: strings are compared by code point, where JavaScript compares UTF-16 code units; the two differ only between a character above U+FFFF and one in U+E000 to U+FFFF, which the ISO day strings it compares never hold.
