/** src/hooks/useTasks.ts: the filtered and sorted task list, the status
    counts and `addTask`. */
module Tasks {
  import opened Wrappers
  import opened Seqs
  import opened Sorting
  import opened Text
  import opened Domain
  import opened AppContext
  import opened Kanban

  /** A status or priority filter: absent, `'all'`, or one value. */
  datatype Choice<T> = Absent | All | Only(value: T)

  /** The `cardId` filter: `undefined` (any card), `null` (unlinked only) or an identifier. */
  datatype CardFilter = AnyCard | Unlinked | LinkedTo(id: string)

  /** The `filters` argument; an absent argument is every field absent. */
  datatype TaskFilters = TaskFilters(
    status: Choice<Status>,
    priority: Choice<Priority>,
    search: Option<string>,
    cardId: CardFilter)

  /** Whether a record's optional card link passes the card filter; `!cardId`
      holds for a missing link and for the empty string. */
  predicate CardMatches(f: CardFilter, cardId: Option<string>) {
    match f
    case AnyCard => true
    case Unlinked => !Truthy(cardId)
    case LinkedTo(id) => cardId == Some(id)
  }

  /** Whether a choice admits a value: absent and `'all'` admit everything. */
  predicate Admits<T(==)>(c: Choice<T>, v: T) {
    !c.Only? || c.value == v
  }

  /** The search test on a lower-cased query: the lower-cased title contains it,
      or there is a description whose lower-cased form contains it. */
  predicate TaskMatches(t: Task, query: string) {
    Contains(Lower(t.title), query) || (t.description.Some? && Contains(Lower(t.description.value), query))
  }

  function TaskCardFilter(f: CardFilter): Task -> bool { (t: Task) => CardMatches(f, t.cardId) }
  function TaskStatusFilter(c: Choice<Status>): Task -> bool { (t: Task) => Admits(c, t.status) }
  function TaskPriorityFilter(c: Choice<Priority>): Task -> bool { (t: Task) => Admits(c, t.priority) }
  function TaskSearchFilter(query: string): Task -> bool { (t: Task) => TaskMatches(t, query) }

  /** The stages of `projectTasks` before the sort: the current project, then
      each filter whose condition holds. */
  function FilteredTasks(d: AppData, f: TaskFilters): seq<Task> {
    var s0 := Filter(d.tasks, TaskInCurrent(d.currentProjectId));
    var s1 := if f.cardId.AnyCard? then s0 else Filter(s0, TaskCardFilter(f.cardId));
    var s2 := if f.status.Only? then Filter(s1, TaskStatusFilter(f.status)) else s1;
    var s3 := if f.priority.Only? then Filter(s2, TaskPriorityFilter(f.priority)) else s2;
    if Truthy(f.search) then Filter(s3, TaskSearchFilter(Lower(f.search.value))) else s3
  }

  /** Every condition of the filter chain for one task, as a single condition. */
  predicate Selected(current: Option<string>, f: TaskFilters, t: Task) {
    current == Some(t.projectId)
    && CardMatches(f.cardId, t.cardId)
    && Admits(f.status, t.status)
    && Admits(f.priority, t.priority)
    && (Truthy(f.search) ==> TaskMatches(t, Lower(f.search.value)))
  }

  /** The successive filters keep exactly the tasks meeting every condition. */
  lemma FilteredTasksMembers(d: AppData, f: TaskFilters, t: Task)
    ensures t in FilteredTasks(d, f) <==> t in d.tasks && Selected(d.currentProjectId, f, t)
  {
    var s0 := Filter(d.tasks, TaskInCurrent(d.currentProjectId));
    var s1 := if f.cardId.AnyCard? then s0 else Filter(s0, TaskCardFilter(f.cardId));
    var s2 := if f.status.Only? then Filter(s1, TaskStatusFilter(f.status)) else s1;
    var s3 := if f.priority.Only? then Filter(s2, TaskPriorityFilter(f.priority)) else s2;
    FilterMembers(d.tasks, TaskInCurrent(d.currentProjectId), t);
    FilterMembers(s0, TaskCardFilter(f.cardId), t);
    FilterMembers(s1, TaskStatusFilter(f.status), t);
    FilterMembers(s2, TaskPriorityFilter(f.priority), t);
    if Truthy(f.search) {
      FilterMembers(s3, TaskSearchFilter(Lower(f.search.value)), t);
    }
  }

  /** `if (filters?.cardId)`: only a non-empty card identifier sorts by priority. */
  predicate SortsByPriority(f: TaskFilters) {
    f.cardId.LinkedTo? && f.cardId.id != ""
  }

  /** Priority rank (p0 first), then newest first. */
  function PriorityKey(t: Task): Key { (PriorityRank(t.priority), -t.createdAt) }

  /** Newest first. */
  function NewestKey(t: Task): Key { (-t.createdAt, 0) }

  /** The comparator of the card view: priority rank, then newest first. */
  function ByPriority(s: seq<Task>): (r: seq<Task>)
    ensures multiset(r) == multiset(s)
    ensures forall i, j :: 0 <= i < j < |r| ==>
      PriorityRank(r[i].priority) < PriorityRank(r[j].priority)
      || (r[i].priority == r[j].priority && r[i].createdAt >= r[j].createdAt)
  {
    var r := SortBy(s, PriorityKey);
    assert forall i, j :: 0 <= i < j < |r| ==>
      PriorityRank(r[i].priority) < PriorityRank(r[j].priority)
      || (r[i].priority == r[j].priority && r[i].createdAt >= r[j].createdAt) by {
      forall i, j | 0 <= i < j < |r| ensures PriorityRank(r[i].priority) < PriorityRank(r[j].priority)
        || (r[i].priority == r[j].priority && r[i].createdAt >= r[j].createdAt)
      {
        assert KeyLe(PriorityKey(r[i]), PriorityKey(r[j]));
        if PriorityRank(r[i].priority) == PriorityRank(r[j].priority) {
          PriorityRankInjective(r[i].priority, r[j].priority);
        }
      }
    }
    r
  }

  /** The comparator of every other view: newest first. */
  function ByNewest(s: seq<Task>): (r: seq<Task>)
    ensures multiset(r) == multiset(s)
    ensures forall i, j :: 0 <= i < j < |r| ==> r[i].createdAt >= r[j].createdAt
  {
    var r := SortBy(s, NewestKey);
    assert forall i, j :: 0 <= i < j < |r| ==> KeyLe(NewestKey(r[i]), NewestKey(r[j]));
    r
  }

  /** `projectTasks`: the selected tasks, by priority then newest first when
      filtering by a card, and newest first otherwise. */
  function ProjectTasksView(d: AppData, f: TaskFilters): (r: seq<Task>)
    ensures multiset(r) == multiset(FilteredTasks(d, f))
    ensures SortsByPriority(f) ==> forall i, j :: 0 <= i < j < |r| ==>
      PriorityRank(r[i].priority) < PriorityRank(r[j].priority)
      || (r[i].priority == r[j].priority && r[i].createdAt >= r[j].createdAt)
    ensures !SortsByPriority(f) ==> forall i, j :: 0 <= i < j < |r| ==> r[i].createdAt >= r[j].createdAt
  {
    var s := FilteredTasks(d, f);
    var r := if SortsByPriority(f) then ByPriority(s) else ByNewest(s);
    r
  }

  /** The view holds exactly the tasks of the current project that pass every filter. */
  lemma ProjectTasksViewMembers(d: AppData, f: TaskFilters, t: Task)
    ensures t in ProjectTasksView(d, f) <==> t in d.tasks && Selected(d.currentProjectId, f, t)
  {
    var r := ProjectTasksView(d, f);
    assert t in r <==> t in multiset(r);
    assert t in FilteredTasks(d, f) <==> t in multiset(FilteredTasks(d, f));
    FilteredTasksMembers(d, f, t);
  }

  datatype TaskCounts = TaskCounts(total: nat, todo: nat, inProgress: nat, done: nat)

  function StatusIs(s: Status): Task -> bool { (t: Task) => t.status == s }

  /** Every task has exactly one of the three statuses. */
  lemma {:induction false} StatusCountsSum(ts: seq<Task>)
    ensures |ts| == |Filter(ts, StatusIs(Todo))| + |Filter(ts, StatusIs(InProgress))| + |Filter(ts, StatusIs(Done))|
  {
    if ts != [] {
      StatusCountsSum(ts[1..]);
    }
  }

  /** `taskCounts`: over all tasks of the current project, whatever the filters. */
  function TaskCountsOf(d: AppData): (r: TaskCounts)
    ensures r.total == |ProjectTasks(d)|
    ensures r.total == r.todo + r.inProgress + r.done
    ensures r.todo == |Filter(ProjectTasks(d), StatusIs(Todo))|
    ensures r.inProgress == |Filter(ProjectTasks(d), StatusIs(InProgress))|
    ensures r.done == |Filter(ProjectTasks(d), StatusIs(Done))|
  {
    var own := ProjectTasks(d);
    StatusCountsSum(own);
    TaskCounts(|own|, |Filter(own, StatusIs(Todo))|, |Filter(own, StatusIs(InProgress))|, |Filter(own, StatusIs(Done))|)
  }

  /** The `data` object `addTask` accepts. */
  datatype NewTaskInput = NewTaskInput(
    description: Option<string>,
    priority: Option<Priority>,
    dueDate: Option<int>,
    cardId: Option<string>,
    links: Option<seq<Link>>)

  /** `addTask(title, data)`: nothing without a current project; otherwise
      `createTask` for it, which keeps neither the links nor a status. */
  method AddTask(store: AppStore, title: string, data: NewTaskInput, id: string, now: int) returns (r: Option<Task>)
    modifies store
    ensures !Truthy(old(store.currentProjectId)) ==> r == None && store.Doc() == old(store.Doc())
    ensures Truthy(old(store.currentProjectId)) ==>
      r.Some? && r.value.projectId == old(store.currentProjectId).value
      && r.value.status == Todo && r.value.links == None
      && store.Doc() == old(store.Doc()).(tasks := old(store.tasks) + [r.value])
    ensures r.Some? ==> r.value == NewTask(id, r.value.projectId, title,
      TaskDraft(None, data.priority, data.description, data.dueDate, data.cardId, data.links, None), now)
    ensures store.selectedCardId == old(store.selectedCardId)
  {
    if Truthy(store.currentProjectId) {
      var draft := TaskDraft(None, data.priority, data.description, data.dueDate, data.cardId, data.links, None);
      var t := store.CreateTask(store.currentProjectId.value, title, draft, id, now);
      r := Some(t);
    } else {
      r := None;
    }
  }
}
