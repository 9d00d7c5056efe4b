/** src/components/features/kanban/KanbanCard.tsx: how long a card has sat
    in its column. `Date.now()` is the parameter `now`. */
module KanbanCard {
  import opened Wrappers
  import opened Text
  import opened Utils

  /** `{ days, label }`; `label` is a reserved word in Dafny. */
  datatype DaysInfo = DaysInfo(days: int, caption: string)

  /** `Math.floor(diffMs / 86400000)`: for a positive divisor Dafny's `/` is the floor. */
  function DayDifference(columnChangedAt: int, now: int): (d: int)
    ensures d * DayMs <= now - columnChangedAt < (d + 1) * DayMs
  {
    (now - columnChangedAt) / DayMs
  }

  /** `getDaysInColumn(columnChangedAt)`: a falsy (missing or 0) timestamp
      reads as today; otherwise the whole days since it, labelled "today",
      "1 day" or "<n> days". */
  function DaysInColumn(columnChangedAt: Option<int>, now: int): (r: DaysInfo)
    ensures columnChangedAt.None? || columnChangedAt.value == 0 ==> r == DaysInfo(0, "today")
    ensures columnChangedAt.Some? && columnChangedAt.value != 0 ==>
              r.days == DayDifference(columnChangedAt.value, now)
    ensures r.days == 0 <==> r.caption == "today"
    ensures r.days == 1 <==> r.caption == "1 day"
    ensures r.days != 0 && r.days != 1 ==> r.caption == IntToString(r.days) + " days"
  {
    if columnChangedAt.None? || columnChangedAt.value == 0 then DaysInfo(0, "today")
    else
      var diffDays := DayDifference(columnChangedAt.value, now);
      if diffDays == 0 then DaysInfo(0, "today")
      else if diffDays == 1 then DaysInfo(1, "1 day")
      else
        assert (IntToString(diffDays) + " days")[|IntToString(diffDays)|..] == " days";
        DaysInfo(diffDays, IntToString(diffDays) + " days")
  }

  /** A card moved less than a day ago has been in its column today, and one
      moved `n` whole days ago shows `n`. */
  lemma DaysInColumnExact(columnChangedAt: int, now: int, n: nat)
    requires columnChangedAt != 0
    requires n * DayMs <= now - columnChangedAt < (n + 1) * DayMs
    ensures DaysInColumn(Some(columnChangedAt), now).days == n
  {
    var d := DayDifference(columnChangedAt, now);
    assert d == n;
  }
}
