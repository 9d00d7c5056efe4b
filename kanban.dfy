/** src/hooks/useKanban.ts: the board derived from the store. */
module Kanban {
  import opened Wrappers
  import opened Seqs
  import opened Sorting
  import opened Utils
  import opened Domain
  import opened AppContext

  /** `c.projectId === currentProjectId`: an absent current project matches nothing. */
  function ColumnInCurrent(current: Option<string>): Column -> bool {
    (c: Column) => current == Some(c.projectId)
  }

  function TaskInCurrent(current: Option<string>): Task -> bool {
    (t: Task) => current == Some(t.projectId)
  }

  /** `projectColumns`: the current project's columns, each as often as stored, by ascending `order`. */
  function ProjectColumns(d: AppData): (r: seq<Column>)
    ensures forall c :: c in r <==> c in d.columns && d.currentProjectId == Some(c.projectId)
    ensures forall i, j :: 0 <= i < j < |r| ==> r[i].order <= r[j].order
    ensures multiset(r) == multiset(Filter(d.columns, ColumnInCurrent(d.currentProjectId)))
  {
    var own := Filter(d.columns, ColumnInCurrent(d.currentProjectId));
    var r := SortByOrder(own, ColumnOrderOf);
    assert forall c :: c in r <==> c in own by {
      forall c ensures c in r <==> c in own {
        assert c in r <==> c in multiset(r);
        assert c in own <==> c in multiset(own);
      }
    }
    assert forall c :: c in own <==> c in d.columns && d.currentProjectId == Some(c.projectId) by {
      forall c ensures c in own <==> c in d.columns && d.currentProjectId == Some(c.projectId) {
        FilterMembers(d.columns, ColumnInCurrent(d.currentProjectId), c);
      }
    }
    r
  }

  /** The columns of a project just created are its three default columns,
      provided no column already named that project. */
  lemma CreateProjectColumns(d: AppData, id: string, name: string, description: Option<string>,
                             columnIds: seq<string>, now: int)
    requires |columnIds| == 3
    requires forall i :: 0 <= i < |d.columns| ==> d.columns[i].projectId != id
    ensures Filter(WithProject(d, id, name, description, columnIds, now).columns, ColumnInCurrent(Some(id)))
         == DefaultColumns(id, columnIds, now)
  {
    var defaults := DefaultColumns(id, columnIds, now);
    assert WithProject(d, id, name, description, columnIds, now).columns == d.columns + defaults;
    FilterConcat(d.columns, defaults, ColumnInCurrent(Some(id)));
    FilterNone(d.columns, ColumnInCurrent(Some(id)));
    assert forall i :: 0 <= i < |defaults| ==> defaults[i].projectId == id;
    FilterAll(defaults, ColumnInCurrent(Some(id)));
  }

  /** The default columns already ascend by `order`. */
  lemma DefaultColumnsAscending(id: string, columnIds: seq<string>, now: int)
    requires |columnIds| == 3
    ensures var defaults := DefaultColumns(id, columnIds, now);
      forall i, j :: 0 <= i < j < |defaults| ==> defaults[i].order <= defaults[j].order
  {
  }

  /** The board of a project just created shows its three default columns in
      their fixed order, provided no column already named that project. */
  lemma CreateProjectBoard(d: AppData, id: string, name: string, description: Option<string>,
                           columnIds: seq<string>, now: int)
    requires |columnIds| == 3
    requires forall i :: 0 <= i < |d.columns| ==> d.columns[i].projectId != id
    ensures ProjectColumns(WithProject(d, id, name, description, columnIds, now))
         == DefaultColumns(id, columnIds, now)
  {
    var r := WithProject(d, id, name, description, columnIds, now);
    var defaults := DefaultColumns(id, columnIds, now);
    CreateProjectColumns(d, id, name, description, columnIds, now);
    DefaultColumnsAscending(id, columnIds, now);
    SortByOrderSorted(defaults, ColumnOrderOf);
    assert r.currentProjectId == Some(id);
  }

  function ColumnCardFilter(columnId: string): Card -> bool {
    (c: Card) => c.columnId == columnId && !c.archived
  }

  /** `getColumnCards(columnId)`: the column's cards that are not archived,
      each as often as stored, by ascending `order`. */
  function ColumnCards(cards: seq<Card>, columnId: string): (r: seq<Card>)
    ensures forall c :: c in r <==> c in cards && c.columnId == columnId && !c.archived
    ensures forall i, j :: 0 <= i < j < |r| ==> r[i].order <= r[j].order
    ensures multiset(r) == multiset(Filter(cards, ColumnCardFilter(columnId)))
  {
    var own := Filter(cards, ColumnCardFilter(columnId));
    var r := SortByOrder(own, CardOrderOf);
    assert forall c :: c in r <==> c in own by {
      forall c ensures c in r <==> c in own {
        assert c in r <==> c in multiset(r);
        assert c in own <==> c in multiset(own);
      }
    }
    assert forall c :: c in own <==> c in cards && c.columnId == columnId && !c.archived by {
      forall c ensures c in own <==> c in cards && c.columnId == columnId && !c.archived {
        FilterMembers(cards, ColumnCardFilter(columnId), c);
      }
    }
    r
  }

  function ArchivedIn(columnIds: seq<string>): Card -> bool {
    (c: Card) => c.archived && c.columnId in columnIds
  }

  /** The comparator `(b.archivedAt ?? 0) - (a.archivedAt ?? 0)` as a key. */
  function ArchivedKey(c: Card): Key {
    (-c.archivedAt.GetOr(0), 0)
  }

  /** `columnId` names a column of the current project. */
  ghost predicate InCurrentColumn(d: AppData, columnId: string) {
    exists c :: c in d.columns && d.currentProjectId == Some(c.projectId) && c.id == columnId
  }

  /** The identifiers of the current project's columns. */
  lemma ProjectColumnIdsMembers(d: AppData, cid: string)
    ensures cid in Map(ProjectColumns(d), ColumnIdOf) <==> InCurrentColumn(d, cid)
  {
    MapMembers(ProjectColumns(d), ColumnIdOf, cid);
  }

  /** `archivedCards`: the archived cards of the current project's columns,
      most recently archived first, a missing `archivedAt` counting as 0. */
  function ArchivedCards(d: AppData): (r: seq<Card>)
    ensures forall k :: k in r <==> k in d.cards && k.archived && InCurrentColumn(d, k.columnId)
    ensures forall i, j :: 0 <= i < j < |r| ==> r[i].archivedAt.GetOr(0) >= r[j].archivedAt.GetOr(0)
    ensures multiset(r) == multiset(Filter(d.cards, ArchivedIn(Map(ProjectColumns(d), ColumnIdOf))))
  {
    var ids := Map(ProjectColumns(d), ColumnIdOf);
    var own := Filter(d.cards, ArchivedIn(ids));
    var r := SortBy(own, ArchivedKey);
    forall k ensures k in r <==> k in d.cards && k.archived && InCurrentColumn(d, k.columnId) {
      SortByMembers(own, ArchivedKey, k);
      FilterMembers(d.cards, ArchivedIn(ids), k);
      ProjectColumnIdsMembers(d, k.columnId);
    }
    assert forall i, j :: 0 <= i < j < |r| ==> KeyLe(ArchivedKey(r[i]), ArchivedKey(r[j]));
    r
  }

  /** No card appears both on the board and among the archived cards. */
  lemma BoardAndArchiveDisjoint(d: AppData, columnId: string)
    ensures forall k :: !(k in ColumnCards(d.cards, columnId) && k in ArchivedCards(d))
  {
  }

  /** `Math.round((completed / total) * 100)` for `total > 0`, and 0 otherwise,
      computed exactly: the nearest whole number to `100 * completed / total`,
      halves rounding up. */
  function Percentage(completed: nat, total: nat): (r: nat)
    ensures total == 0 ==> r == 0
    ensures total > 0 ==> 2 * r * total <= 200 * completed + total < 2 * (r + 1) * total
  {
    if total == 0 then 0 else (200 * completed + total) / (2 * total)
  }

  lemma MulMono(a: int, b: int, m: int)
    requires m >= 0 && a <= b
    ensures m * a <= m * b
  {
  }

  /** A share of a whole is between 0 and 100 percent, and the ends are exact. */
  lemma PercentageBounds(completed: nat, total: nat)
    requires completed <= total
    ensures Percentage(completed, total) <= 100
    ensures completed == 0 ==> Percentage(completed, total) == 0
    ensures 0 < completed == total ==> Percentage(completed, total) == 100
  {
    var r := Percentage(completed, total);
    if total > 0 {
      var m := 2 * total;
      assert m * r <= 200 * completed + total < m * (r + 1);
      if r > 100 {
        MulMono(101, r, m);
        MulMono(completed, total, 200);
      }
      if completed == 0 && r > 0 {
        MulMono(1, r, m);
      }
      if completed == total && r < 100 {
        MulMono(r + 1, 100, m);
      }
    }
  }

  datatype Progress = Progress(total: nat, completed: nat, percentage: nat)

  function CardTaskFilter(current: Option<string>, cardId: string): Task -> bool {
    (t: Task) => current == Some(t.projectId) && t.cardId == Some(cardId)
  }

  function IsDone(): Task -> bool { (t: Task) => t.status == Done }

  /** `getCardProgress(cardId)` (and `getCardTaskProgress` of useTasks.ts):
      the current project's tasks linked to the card, how many are done, and
      the rounded percentage. */
  function CardProgress(d: AppData, cardId: string): (r: Progress)
    ensures r.total == |Filter(d.tasks, CardTaskFilter(d.currentProjectId, cardId))|
    ensures r.completed == |Filter(Filter(d.tasks, CardTaskFilter(d.currentProjectId, cardId)), IsDone())|
    ensures r.completed <= r.total && r.percentage <= 100
    ensures r.total == 0 ==> r.percentage == 0
    ensures r.total > 0 ==> r.percentage == Percentage(r.completed, r.total)
  {
    var own := Filter(d.tasks, CardTaskFilter(d.currentProjectId, cardId));
    var done := Filter(own, IsDone());
    PercentageBounds(|done|, |own|);
    Progress(|own|, |done|, Percentage(|done|, |own|))
  }

  /** `addColumn(title)`: a column for the current project, or nothing without one. */
  method AddColumn(store: AppStore, title: string, id: string, now: int)
    modifies store
    ensures !Truthy(old(store.currentProjectId)) ==> store.Doc() == old(store.Doc())
    ensures Truthy(old(store.currentProjectId)) ==>
      store.Doc() == old(store.Doc()).(columns := old(store.columns)
        + [NewColumn(old(store.columns), id, old(store.currentProjectId).value, title, now)])
    ensures store.selectedCardId == old(store.selectedCardId)
  {
    if Truthy(store.currentProjectId) {
      var _ := store.CreateColumn(store.currentProjectId.value, title, id, now);
    }
  }

  /** `projectTasks`: exactly the tasks of the current project, each as often as
      stored, in store order. */
  function ProjectTasks(d: AppData): (r: seq<Task>)
    ensures forall t :: t in r <==> t in d.tasks && d.currentProjectId == Some(t.projectId)
    ensures |r| <= |d.tasks|
    ensures FilteredFrom(r, d.tasks, TaskInCurrent(d.currentProjectId))
  {
    var r := Filter(d.tasks, TaskInCurrent(d.currentProjectId));
    FilterFilteredFrom(d.tasks, TaskInCurrent(d.currentProjectId));
    assert forall t :: t in r <==> t in d.tasks && d.currentProjectId == Some(t.projectId) by {
      forall t ensures t in r <==> t in d.tasks && d.currentProjectId == Some(t.projectId) {
        FilterMembers(d.tasks, TaskInCurrent(d.currentProjectId), t);
      }
    }
    r
  }
}
