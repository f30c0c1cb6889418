/** The goal editor's controls (`GoalEditor.tsx`): the unit and time-range toggles and the
    amount buttons and text box, each producing a change of one field of the goal. */
module GoalEditor {
  import opened Wrappers
  import opened Types

  /** What the editor hands to its `onChange`: one field of the goal and its new value. */
  datatype GoalChange = AmountTo(amount: real) | UnitTo(unit: Unit) | RangeTo(timeRange: TimeRange)

  /** `cycleUnit`: hours become occurrences, anything else becomes hours. */
  function CycleUnit(u: Unit): (r: Unit)
    ensures r == Occurrences <==> u == Hours
    ensures r == Hours <==> u != Hours
  {
    if u == Hours then Occurrences else Hours
  }

  /** The toggle goes back and forth between hours and occurrences; sessions join that cycle
      after one click. */
  lemma CycleUnitTwice(u: Unit)
    ensures u != Sessions ==> CycleUnit(CycleUnit(u)) == u
    ensures u == Sessions ==> CycleUnit(CycleUnit(u)) == Occurrences
  {
  }

  /** `QUEST_GOAL_TIME_RANGES`. */
  const TimeRanges: seq<TimeRange> := [Day, Week, Month, Year]

  /** `QUEST_GOAL_TIME_RANGES.indexOf(r)`. */
  function RangeIndex(r: TimeRange): (i: nat)
    ensures i < |TimeRanges| && TimeRanges[i] == r
  {
    match r
    case Day => 0
    case Week => 1
    case Month => 2
    case Year => 3
  }

  /** `cycleTimeRange`: the next range of the list, wrapping from year to day. */
  function CycleTimeRange(r: TimeRange): (next: TimeRange)
    ensures RangeIndex(next) == (RangeIndex(r) + 1) % 4
  {
    TimeRanges[(RangeIndex(r) + 1) % |TimeRanges|]
  }

  /** Day, week, month, year and back to day: four clicks return the starting range, and no
      fewer do. */
  lemma CycleTimeRangeOrder(r: TimeRange)
    ensures CycleTimeRange(Day) == Week && CycleTimeRange(Week) == Month
    ensures CycleTimeRange(Month) == Year && CycleTimeRange(Year) == Day
    ensures CycleTimeRange(CycleTimeRange(CycleTimeRange(CycleTimeRange(r)))) == r
    ensures CycleTimeRange(r) != r && CycleTimeRange(CycleTimeRange(r)) != r
    ensures CycleTimeRange(CycleTimeRange(CycleTimeRange(r))) != r
  {
  }

  /** The decrease button: `Math.max(1, amount - 1)`. */
  function DecreaseAmount(amount: real): (r: real)
    ensures r >= 1.0
    ensures amount >= 2.0 ==> r == amount - 1.0
    ensures amount < 2.0 ==> r == 1.0
  {
    if amount - 1.0 > 1.0 then amount - 1.0 else 1.0
  }

  /** The increase button: `amount + 1`. */
  function IncreaseAmount(amount: real): (r: real)
    ensures r - amount == 1.0
  {
    amount + 1.0
  }

  /** The buttons undo each other above the floor of 1. */
  lemma ButtonsUndo(amount: real)
    ensures amount >= 1.0 ==> DecreaseAmount(IncreaseAmount(amount)) == amount
    ensures amount >= 2.0 ==> IncreaseAmount(DecreaseAmount(amount)) == amount
  {
  }

  /** The amount text box: `Math.max(1, Number(text) || 1)`, where `typed` is `Number(text)`
      (None for NaN); NaN and 0 are falsy and read as 1. */
  function TypedAmount(typed: Option<real>): (r: real)
    ensures r >= 1.0
    ensures typed.Some? && typed.value >= 1.0 ==> r == typed.value
    ensures typed.None? || typed.value <= 1.0 ==> r == 1.0
  {
    var v := if typed.None? || typed.value == 0.0 then 1.0 else typed.value;
    if 1.0 > v then 1.0 else v
  }

  /** The change each control hands on. */
  function DecreaseClicked(goal: Goal): GoalChange { AmountTo(DecreaseAmount(goal.amount)) }
  function IncreaseClicked(goal: Goal): GoalChange { AmountTo(IncreaseAmount(goal.amount)) }
  function AmountTyped(typed: Option<real>): GoalChange { AmountTo(TypedAmount(typed)) }
  function UnitClicked(goal: Goal): GoalChange { UnitTo(CycleUnit(goal.unit)) }
  function RangeClicked(goal: Goal): GoalChange { RangeTo(CycleTimeRange(goal.timeRange)) }

  /** Whatever the control, an amount it hands on is at least 1 when the goal's was. */
  lemma ChangesKeepAmountPositive(goal: Goal, typed: Option<real>)
    requires goal.amount >= 1.0
    ensures DecreaseClicked(goal).amount >= 1.0 && IncreaseClicked(goal).amount >= 1.0
    ensures AmountTyped(typed).amount >= 1.0
  {
  }
}
