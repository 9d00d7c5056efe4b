/** src/components/features/kanban/DeliverableStatusModal.tsx: the status
    summary of a card's tasks and the text made from it. `Date.now()` is the
    parameter `now` and `formatDate` (locale formatting) is a parameter. */
module DeliverableStatus {
  import opened Wrappers
  import opened Seqs
  import opened Sorting
  import opened Text
  import opened Domain
  import opened Kanban
  import opened Tasks

  /** `t.dueDate && ...`: a due date of 0 is falsy and counts as none. */
  predicate HasDueDate(t: Task) {
    t.dueDate.Some? && t.dueDate.value != 0
  }

  /** An open task due after `now`. */
  predicate IsUpcoming(t: Task, now: int) {
    t.status != Done && HasDueDate(t) && t.dueDate.value > now
  }

  /** An open task due before `now`. */
  predicate IsOverdue(t: Task, now: int) {
    t.status != Done && HasDueDate(t) && t.dueDate.value < now
  }

  function UpcomingFilter(now: int): Task -> bool {
    (t: Task) => IsUpcoming(t, now)
  }

  function OverdueFilter(now: int): Task -> bool {
    (t: Task) => IsOverdue(t, now)
  }

  function HighPriorityFilter(): Task -> bool {
    (t: Task) => t.status != Done && (t.priority == P0 || t.priority == P1)
  }

  /** `(a, b) => b.updatedAt - a.updatedAt` */
  function RecentKey(t: Task): Key { (-t.updatedAt, 0) }

  /** `(a, b) => (a.dueDate ?? 0) - (b.dueDate ?? 0)` */
  function DueKey(t: Task): Key { (t.dueDate.GetOr(0), 0) }

  /** The first `k` of a sorted sequence come no later than any element left out. */
  lemma TakeSortedFirst<T>(s: seq<T>, key: T -> Key, k: nat, x: T)
    requires SortedBy(s, key)
    requires x in s && x !in Take(s, k)
    ensures forall y :: y in Take(s, k) ==> KeyLe(key(y), key(x))
  {
    var j :| 0 <= j < |s| && s[j] == x;
    var t := Take(s, k);
    assert |s| > k && t == s[..k];
    assert forall m :: 0 <= m < k ==> s[m] != x by {
      forall m | 0 <= m < k ensures s[m] != x {
        assert t[m] == s[m];
      }
    }
    forall y | y in t ensures KeyLe(key(y), key(x)) {
      var i :| 0 <= i < |t| && t[i] == y;
      assert s[i] == y;
    }
  }

  /** `recentlyCompleted`: up to three done tasks, most recently updated first,
      and no done task left out is more recent than one kept. */
  function RecentlyCompleted(tasks: seq<Task>): (r: seq<Task>)
    ensures |r| == if |Filter(tasks, IsDone())| < 3 then |Filter(tasks, IsDone())| else 3
    ensures multiset(r) <= multiset(Filter(tasks, IsDone()))
    ensures forall t :: t in r ==> t in tasks && t.status == Done
    ensures forall i, j :: 0 <= i < j < |r| ==> r[i].updatedAt >= r[j].updatedAt
    ensures forall t, u :: t in tasks && t.status == Done && t !in r && u in r ==> u.updatedAt >= t.updatedAt
  {
    var done := Filter(tasks, IsDone());
    var sorted := SortBy(done, RecentKey);
    var r := Take(sorted, 3);
    forall t | t in r ensures t in tasks && t.status == Done {
      SortByMembers(done, RecentKey, t);
      FilterMembers(tasks, IsDone(), t);
    }
    forall i, j | 0 <= i < j < |r| ensures r[i].updatedAt >= r[j].updatedAt {
      assert r[i] == sorted[i] && r[j] == sorted[j];
      assert KeyLe(RecentKey(sorted[i]), RecentKey(sorted[j]));
    }
    forall t, u | t in tasks && t.status == Done && t !in r && u in r ensures u.updatedAt >= t.updatedAt {
      FilterMembers(tasks, IsDone(), t);
      SortByMembers(done, RecentKey, t);
      TakeSortedFirst(sorted, RecentKey, 3, t);
      assert KeyLe(RecentKey(u), RecentKey(t));
    }
    r
  }

  /** `upcoming`: up to three open tasks due after `now`, soonest first, and
      no such task left out is due sooner than one kept. */
  function Upcoming(tasks: seq<Task>, now: int): (r: seq<Task>)
    ensures |r| == if |Filter(tasks, UpcomingFilter(now))| < 3 then |Filter(tasks, UpcomingFilter(now))| else 3
    ensures multiset(r) <= multiset(Filter(tasks, UpcomingFilter(now)))
    ensures forall t :: t in r ==> t in tasks && IsUpcoming(t, now)
    ensures forall i, j :: 0 <= i < j < |r| ==> r[i].dueDate.GetOr(0) <= r[j].dueDate.GetOr(0)
    ensures forall t, u :: t in tasks && IsUpcoming(t, now) && t !in r && u in r ==>
              u.dueDate.GetOr(0) <= t.dueDate.GetOr(0)
  {
    var open := Filter(tasks, UpcomingFilter(now));
    var sorted := SortBy(open, DueKey);
    var r := Take(sorted, 3);
    UpcomingMembers(tasks, now, r);
    forall i, j | 0 <= i < j < |r| ensures r[i].dueDate.GetOr(0) <= r[j].dueDate.GetOr(0) {
      assert r[i] == sorted[i] && r[j] == sorted[j];
      assert KeyLe(DueKey(sorted[i]), DueKey(sorted[j]));
    }
    forall t, u | t in tasks && IsUpcoming(t, now) && t !in r && u in r
      ensures u.dueDate.GetOr(0) <= t.dueDate.GetOr(0)
    {
      FilterMembers(tasks, UpcomingFilter(now), t);
      SortByMembers(open, DueKey, t);
      TakeSortedFirst(sorted, DueKey, 3, t);
      assert KeyLe(DueKey(u), DueKey(t));
    }
    r
  }

  lemma UpcomingMembers(tasks: seq<Task>, now: int, r: seq<Task>)
    requires r == Take(SortBy(Filter(tasks, UpcomingFilter(now)), DueKey), 3)
    ensures forall t :: t in r ==> t in tasks && IsUpcoming(t, now)
  {
    var open := Filter(tasks, UpcomingFilter(now));
    forall t | t in r ensures t in tasks && IsUpcoming(t, now) {
      SortByMembers(open, DueKey, t);
      FilterMembers(tasks, UpcomingFilter(now), t);
    }
  }

  /** The summary `useMemo` computes for a card. */
  datatype Summary = Summary(
    total: nat,
    completed: nat,
    inProgress: nat,
    todo: nat,
    percentage: nat,
    recentlyCompleted: seq<Task>,
    upcoming: seq<Task>,
    overdue: seq<Task>,
    highPriority: seq<Task>)

  /** `summary`: nothing without a card; otherwise the counts, the percentage
      and the four lists. */
  function Summarize(card: Option<Card>, tasks: seq<Task>, now: int): (r: Option<Summary>)
    ensures r.None? <==> card.None?
    ensures r.Some? ==> r.value.total == |tasks| && r.value.total == r.value.completed + r.value.inProgress + r.value.todo
    ensures r.Some? ==> r.value.completed == |Filter(tasks, IsDone())|
    ensures r.Some? ==> r.value.inProgress == |Filter(tasks, StatusIs(InProgress))|
    ensures r.Some? ==> r.value.percentage == Percentage(r.value.completed, r.value.total) && r.value.percentage <= 100
    ensures r.Some? ==> r.value.recentlyCompleted == RecentlyCompleted(tasks) && r.value.upcoming == Upcoming(tasks, now)
    ensures r.Some? ==> forall t :: t in r.value.overdue <==> t in tasks && IsOverdue(t, now)
    ensures r.Some? ==> forall t :: t in r.value.highPriority <==> t in tasks && HighPriorityFilter()(t)
    ensures r.Some? ==> FilteredFrom(r.value.overdue, tasks, OverdueFilter(now))
    ensures r.Some? ==> FilteredFrom(r.value.highPriority, tasks, HighPriorityFilter())
  {
    if card.None? then None
    else
      var completed := |Filter(tasks, StatusIs(Done))|;
      StatusCountsSum(tasks);
      assert Filter(tasks, StatusIs(Done)) == Filter(tasks, IsDone()) by {
        FilterCongruent(tasks, StatusIs(Done), IsDone());
      }
      PercentageBounds(completed, |tasks|);
      var overdue := Filter(tasks, OverdueFilter(now));
      var high := Filter(tasks, HighPriorityFilter());
      FilterFilteredFrom(tasks, OverdueFilter(now));
      FilterFilteredFrom(tasks, HighPriorityFilter());
      assert forall t :: t in overdue <==> t in tasks && IsOverdue(t, now) by {
        forall t ensures t in overdue <==> t in tasks && IsOverdue(t, now) {
          FilterMembers(tasks, OverdueFilter(now), t);
        }
      }
      assert forall t :: t in high <==> t in tasks && HighPriorityFilter()(t) by {
        forall t ensures t in high <==> t in tasks && HighPriorityFilter()(t) {
          FilterMembers(tasks, HighPriorityFilter(), t);
        }
      }
      Some(Summary(
        |tasks|,
        completed,
        |Filter(tasks, StatusIs(InProgress))|,
        |Filter(tasks, StatusIs(Todo))|,
        Percentage(completed, |tasks|),
        RecentlyCompleted(tasks),
        Upcoming(tasks, now),
        overdue,
        high))
  }

  /** A task due exactly now is neither upcoming nor overdue. */
  lemma DueNowIsNeither(card: Card, tasks: seq<Task>, now: int, t: Task)
    requires t.dueDate == Some(now)
    ensures t !in Summarize(Some(card), tasks, now).value.upcoming
    ensures t !in Summarize(Some(card), tasks, now).value.overdue
  {
  }

  /** `s` when `n !== 1` */
  function Plural(n: nat, one: string, many: string): string {
    if n != 1 then many else one
  }

  /** The sentence a card with tasks opens with. */
  function Headline(title: string, s: Summary): string {
    title + " is " + NatToString(s.percentage) + "% complete with " + NatToString(s.completed)
    + " of " + NatToString(s.total) + " task" + Plural(s.total, "", "s") + " done."
  }

  /** A count, then `one` for exactly one and `many` otherwise, then `rest`. */
  function Clause(n: nat, one: string, many: string, rest: string): (r: string)
    ensures n == 1 ==> r == "1" + one + rest
    ensures n != 1 ==> r == NatToString(n) + many + rest
  {
    NatToString(n) + Plural(n, one, many) + rest
  }

  /** The in-progress clause: "1 task is" for one, "n tasks are" otherwise. */
  function InProgressClause(n: nat): (r: string)
    ensures n == 1 ==> r == "1 task is in progress"
    ensures n != 1 ==> r == NatToString(n) + " tasks are in progress"
  {
    Clause(n, " task is", " tasks are", " in progress")
  }

  /** The to-do clause: "1 is" for one, "n are" otherwise. */
  function TodoClause(n: nat): (r: string)
    ensures n == 1 ==> r == "1 is still to do"
    ensures n != 1 ==> r == NatToString(n) + " are still to do"
  {
    Clause(n, " is", " are", " still to do")
  }

  /** `statusParts`: the in-progress clause when some task is in progress, then
      the to-do clause when some task is still to do. */
  function StatusParts(s: Summary): (r: seq<string>)
    ensures |r| == (if s.inProgress > 0 then 1 else 0) + (if s.todo > 0 then 1 else 0)
    ensures s.inProgress > 0 ==> r[0] == InProgressClause(s.inProgress)
    ensures s.todo > 0 ==> r[|r| - 1] == TodoClause(s.todo)
  {
    (if s.inProgress > 0 then [InProgressClause(s.inProgress)] else [])
    + (if s.todo > 0 then [TodoClause(s.todo)] else [])
  }

  /** The overdue sentence: "There is 1 overdue task." for one, "There are n overdue tasks." otherwise. */
  function OverdueSentence(n: nat): (r: string)
    ensures n == 1 ==> r == "There is 1 overdue task."
    ensures n != 1 ==> r == "There are " + NatToString(n) + " overdue tasks."
  {
    "There " + (if n == 1 then "is" else "are") + " " + NatToString(n) + " overdue task" + Plural(n, "", "s") + "."
  }

  /** `parts`: the headline, then the status sentence and the overdue sentence when they apply. */
  function ParagraphParts(title: string, s: Summary): (r: seq<string>)
    ensures s.total == 0 ==> r == [title + " has no linked tasks yet."]
    ensures s.total > 0 ==> 1 <= |r| <= 3 && r[0] == Headline(title, s)
    ensures s.total > 0 ==> |r| == 1 + (if StatusParts(s) != [] then 1 else 0) + (if s.overdue != [] then 1 else 0)
    ensures s.total > 0 && s.inProgress > 0 && s.todo > 0 ==>
              r[1] == InProgressClause(s.inProgress) + " and " + TodoClause(s.todo) + "."
    ensures s.total > 0 && s.inProgress > 0 && s.todo == 0 ==> r[1] == InProgressClause(s.inProgress) + "."
    ensures s.total > 0 && s.inProgress == 0 && s.todo > 0 ==> r[1] == TodoClause(s.todo) + "."
    ensures s.total > 0 && s.overdue != [] ==> r[|r| - 1] == OverdueSentence(|s.overdue|)
  {
    if s.total == 0 then [title + " has no linked tasks yet."]
    else
      var status := StatusParts(s);
      assert |status| == 2 ==> Join(status, " and ") == status[0] + " and " + status[1];
      [Headline(title, s)]
      + (if status != [] then [Join(status, " and ") + "."] else [])
      + (if s.overdue != [] then [OverdueSentence(|s.overdue|)] else [])
  }

  /** `generateParagraph()`: empty without a card or summary, else the parts joined by spaces. */
  function Paragraph(card: Option<Card>, summary: Option<Summary>): (r: string)
    ensures card.None? || summary.None? ==> r == ""
    ensures card.Some? && summary.Some? && summary.value.total == 0 ==>
              r == card.value.title + " has no linked tasks yet."
    ensures card.Some? && summary.Some? && summary.value.total > 0 ==>
              StartsWith(r, Headline(card.value.title, summary.value))
    ensures card.Some? && summary.Some? && summary.value.total > 0 ==>
              var parts := ParagraphParts(card.value.title, summary.value);
              (|parts| == 1 ==> r == parts[0])
              && (|parts| == 2 ==> r == parts[0] + " " + parts[1])
              && (|parts| == 3 ==> r == parts[0] + " " + parts[1] + " " + parts[2])
  {
    if card.None? || summary.None? then ""
    else
      var parts := ParagraphParts(card.value.title, summary.value);
      JoinStartsWith(parts, " ");
      JoinUpToThree(parts, " ");
      Join(parts, " ")
  }

  lemma JoinStartsWith(parts: seq<string>, sep: string)
    requires parts != []
    ensures StartsWith(Join(parts, sep), parts[0])
  {
  }

  /** Joining one, two or three parts, written out. */
  lemma JoinUpToThree(parts: seq<string>, sep: string)
    ensures |parts| == 1 ==> Join(parts, sep) == parts[0]
    ensures |parts| == 2 ==> Join(parts, sep) == parts[0] + sep + parts[1]
    ensures |parts| == 3 ==> Join(parts, sep) == parts[0] + sep + parts[1] + sep + parts[2]
  {
    if |parts| == 3 {
      assert parts[1..][1..] == [parts[2]];
    }
  }

  function PriorityLabel(p: Priority): string {
    match p
    case P0 => "P0"
    case P1 => "P1"
    case P2 => "P2"
    case P3 => "P3"
    case P4 => "P4"
  }

  function StatusLabel(s: Status): string {
    match s
    case Todo => "To Do"
    case InProgress => "In Progress"
    case Done => "Done"
  }

  function CompletedLine(formatDate: int -> string): Task -> string {
    (t: Task) => "Completed \"" + t.title + "\" on " + formatDate(t.updatedAt)
  }

  function UpcomingLine(formatDate: int -> string): Task -> string {
    (t: Task) => "Upcoming: \"" + t.title + "\" due " + formatDate(t.dueDate.GetOr(0))
  }

  function OverdueLine(formatDate: int -> string): Task -> string {
    (t: Task) => "Overdue: \"" + t.title + "\" was due " + formatDate(t.dueDate.GetOr(0))
  }

  function PriorityLine(): Task -> string {
    (t: Task) => PriorityLabel(t.priority) + " priority: \"" + t.title + "\" (" + StatusLabel(t.status) + ")"
  }

  /** The bullet list: one line per completed, upcoming, overdue and
      high-priority task, in that order. */
  function Bullets(s: Summary, formatDate: int -> string): (r: seq<string>)
    ensures |r| == |s.recentlyCompleted| + |s.upcoming| + |s.overdue| + |s.highPriority|
  {
    Map(s.recentlyCompleted, CompletedLine(formatDate)) + Map(s.upcoming, UpcomingLine(formatDate))
    + Map(s.overdue, OverdueLine(formatDate)) + Map(s.highPriority, PriorityLine())
  }

  /** Each section of the list sits where its order puts it. */
  lemma BulletsOrder(s: Summary, formatDate: int -> string)
    ensures var b := Bullets(s, formatDate);
      var k1 := |s.recentlyCompleted|;
      var k2 := k1 + |s.upcoming|;
      var k3 := k2 + |s.overdue|;
      (forall i :: 0 <= i < k1 ==> b[i] == CompletedLine(formatDate)(s.recentlyCompleted[i]))
      && (forall i :: k1 <= i < k2 ==> b[i] == UpcomingLine(formatDate)(s.upcoming[i - k1]))
      && (forall i :: k2 <= i < k3 ==> b[i] == OverdueLine(formatDate)(s.overdue[i - k2]))
      && (forall i :: k3 <= i < |b| ==> b[i] == PriorityLine()(s.highPriority[i - k3]))
  {
    var m1 := Map(s.recentlyCompleted, CompletedLine(formatDate));
    var m2 := Map(s.upcoming, UpcomingLine(formatDate));
    var m3 := Map(s.overdue, OverdueLine(formatDate));
    var m4 := Map(s.highPriority, PriorityLine());
    ConcatSections(m1, m2, m3, m4);
  }

  /** One `for (const task of ts) bullets.push(line(task))` loop. */
  method PushLines(bullets: seq<string>, ts: seq<Task>, line: Task -> string) returns (r: seq<string>)
    ensures r == bullets + Map(ts, line)
  {
    r := bullets;
    for i := 0 to |ts|
      invariant r == bullets + Map(ts[..i], line)
    {
      assert ts[..i + 1] == ts[..i] + [ts[i]];
      MapConcat(ts[..i], [ts[i]], line);
      r := r + [line(ts[i])];
    }
    assert ts[..|ts|] == ts;
  }

  /** `generateBulletPoints()`: nothing without a summary, else the four loops in turn. */
  method GenerateBulletPoints(summary: Option<Summary>, formatDate: int -> string) returns (bullets: seq<string>)
    ensures summary.None? ==> bullets == []
    ensures summary.Some? ==> bullets == Bullets(summary.value, formatDate)
  {
    bullets := [];
    if summary.None? {
      return;
    }
    var s := summary.value;
    ghost var m1 := Map(s.recentlyCompleted, CompletedLine(formatDate));
    ghost var m2 := Map(s.upcoming, UpcomingLine(formatDate));
    ghost var m3 := Map(s.overdue, OverdueLine(formatDate));
    ghost var m4 := Map(s.highPriority, PriorityLine());
    bullets := PushLines(bullets, s.recentlyCompleted, CompletedLine(formatDate));
    assert bullets == m1;
    bullets := PushLines(bullets, s.upcoming, UpcomingLine(formatDate));
    assert bullets == m1 + m2;
    bullets := PushLines(bullets, s.overdue, OverdueLine(formatDate));
    assert bullets == m1 + m2 + m3;
    bullets := PushLines(bullets, s.highPriority, PriorityLine());
    assert bullets == m1 + m2 + m3 + m4;
  }

  function Dash(): string -> string { (b: string) => "- " + b }

  /** `generatePlainText()`: the paragraph, then a blank line and the
      dash-prefixed bullets one per line, when there are bullets. */
  method GeneratePlainText(paragraph: string, bullets: seq<string>) returns (text: string)
    ensures bullets == [] ==> text == paragraph
    ensures bullets != [] ==> text == paragraph + "\n\n" + Join(Map(bullets, Dash()), "\n")
  {
    text := paragraph;
    if |bullets| > 0 {
      text := text + "\n\n";
      text := text + Join(Map(bullets, Dash()), "\n");
    }
  }
}
