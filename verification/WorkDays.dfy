// Working days on the line of civil day numbers: day 0 is 1970-01-01, a Thursday.
module WorkDays {

  // ECMA-262 section 21.4.1.6: 0 is Sunday, 6 is Saturday.
  function WeekDay(day: int): int {
    (day + 4) % 7
  }

  predicate Works(day: int, holidays: set<int>) {
    WeekDay(day) != 0 && WeekDay(day) != 6 && day !in holidays
  }

  // The number of working days in [from, to).
  function WorkingDays(from: int, to: int, holidays: set<int>): nat
    decreases to - from
  {
    if to <= from then 0 else WorkingDays(from, to - 1, holidays) + if Works(to - 1, holidays) then 1 else 0
  }
}
