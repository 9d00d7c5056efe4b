/** src/context/AppContext.tsx: the document store and its create, update and
    delete operations.

    Every operation of the source replaces whole collections with the result of
    a `filter`, `map` or spread over the previous one. Those results are the
    functions below; the class `AppStore` holds the six document fields and
    `selectedCardId`, and each of its methods assigns them from one of the
    functions. `Date.now()` and `generateId()` are parameters (`now` and the
    fresh identifiers). */
module AppContext {
  import opened Wrappers
  import opened Seqs
  import opened Utils
  import opened Domain

  // ---- predicates the filters and maps of the store use ----

  function ProjectIs(id: string): Project -> bool { (p: Project) => p.id == id }
  function ProjectIsNot(id: string): Project -> bool { (p: Project) => p.id != id }
  function ColumnIs(id: string): Column -> bool { (c: Column) => c.id == id }
  function ColumnIsNot(id: string): Column -> bool { (c: Column) => c.id != id }
  function ColumnInProject(projectId: string): Column -> bool { (c: Column) => c.projectId == projectId }
  function ColumnNotInProject(projectId: string): Column -> bool { (c: Column) => c.projectId != projectId }
  function CardIs(id: string): Card -> bool { (c: Card) => c.id == id }
  function CardIsNot(id: string): Card -> bool { (c: Card) => c.id != id }
  function CardInColumn(columnId: string): Card -> bool { (c: Card) => c.columnId == columnId }
  function CardNotInColumn(columnId: string): Card -> bool { (c: Card) => c.columnId != columnId }
  function CardNotInColumns(columnIds: seq<string>): Card -> bool { (c: Card) => c.columnId !in columnIds }
  function TaskIs(id: string): Task -> bool { (t: Task) => t.id == id }
  function TaskIsNot(id: string): Task -> bool { (t: Task) => t.id != id }
  function TaskNotInProject(projectId: string): Task -> bool { (t: Task) => t.projectId != projectId }
  function TaskLinkedTo(cardId: string): Task -> bool { (t: Task) => t.cardId == Some(cardId) }
  function NoteIs(id: string): Note -> bool { (n: Note) => n.id == id }
  function NoteIsNot(id: string): Note -> bool { (n: Note) => n.id != id }
  function NoteNotInProject(projectId: string): Note -> bool { (n: Note) => n.projectId != projectId }
  function NoteLinkedTo(cardId: string): Note -> bool { (n: Note) => n.cardId == Some(cardId) }

  function MergeProjectWith(u: ProjectPatch, now: int): Project -> Project { (p: Project) => MergeProject(p, u, now) }
  function Retitle(title: string): Column -> Column { (c: Column) => c.(title := title) }
  function MergeCardWith(u: CardPatch, now: int): Card -> Card { (c: Card) => MergeCard(c, u, now) }
  function MergeTaskWith(u: TaskPatch, now: int): Task -> Task { (t: Task) => MergeTask(t, u, now) }
  function MergeNoteWith(u: NotePatch, now: int): Note -> Note { (n: Note) => MergeNote(n, u, now) }
  function UnlinkTask(): Task -> Task { (t: Task) => t.(cardId := None) }
  function UnlinkNote(): Note -> Note { (n: Note) => n.(cardId := None) }

  // ---- invariants of the document ----

  /** No two records of one collection share an identifier. `generateId`
      produces fresh identifiers, and the store keeps them unique. */
  ghost predicate ValidData(d: AppData) {
    UniqueBy(d.projects, ProjectIdOf) && UniqueBy(d.columns, ColumnIdOf) && UniqueBy(d.cards, CardIdOf)
    && UniqueBy(d.tasks, TaskIdOf) && UniqueBy(d.notes, NoteIdOf)
  }

  ghost predicate HasProject(d: AppData, id: string) {
    exists j :: 0 <= j < |d.projects| && d.projects[j].id == id
  }

  ghost predicate HasColumn(d: AppData, id: string) {
    exists j :: 0 <= j < |d.columns| && d.columns[j].id == id
  }

  ghost predicate HasCard(d: AppData, id: string) {
    exists j :: 0 <= j < |d.cards| && d.cards[j].id == id
  }

  /** The references the cascade of `deleteProject` follows: each column names a
      project, each card a column, each task and note a project. */
  ghost predicate Linked(d: AppData) {
    (forall i :: 0 <= i < |d.columns| ==> HasProject(d, d.columns[i].projectId))
    && (forall i :: 0 <= i < |d.cards| ==> HasColumn(d, d.cards[i].columnId))
    && (forall i :: 0 <= i < |d.tasks| ==> HasProject(d, d.tasks[i].projectId))
    && (forall i :: 0 <= i < |d.notes| ==> HasProject(d, d.notes[i].projectId))
  }

  /** The optional links from tasks and notes to cards lead to existing cards. */
  ghost predicate WeakLinked(d: AppData) {
    (forall i :: 0 <= i < |d.tasks| && d.tasks[i].cardId.Some? ==> HasCard(d, d.tasks[i].cardId.value))
    && (forall i :: 0 <= i < |d.notes| && d.notes[i].cardId.Some? ==> HasCard(d, d.notes[i].cardId.value))
  }

  // ---- projects ----

  /** The titles of `DEFAULT_COLUMNS` (src/lib/constants.ts). */
  const DefaultColumnTitles: seq<string> := ["To Do", "In Progress", "Done"]

  /** `DEFAULT_COLUMNS.map((col, index) => ...)` for a new project: each column
      gets a fresh identifier and its index as `order`. */
  function DefaultColumns(projectId: string, ids: seq<string>, now: int): (r: seq<Column>)
    requires |ids| == 3
    ensures |r| == 3
    ensures forall i :: 0 <= i < 3 ==>
      r[i].id == ids[i] && r[i].projectId == projectId && r[i].title == DefaultColumnTitles[i]
      && r[i].order == i && r[i].createdAt == now
  {
    seq(3, i requires 0 <= i < 3 => Column(ids[i], projectId, DefaultColumnTitles[i], i, now))
  }

  /** `createProject`: the new project is appended, its three default columns are
      appended, and it becomes the current project. */
  function WithProject(d: AppData, id: string, name: string, description: Option<string>,
                         columnIds: seq<string>, now: int): (r: AppData)
    requires |columnIds| == 3
    ensures r.projects == d.projects + [Project(id, name, description, now, now)]
    ensures |r.columns| == |d.columns| + 3
    ensures r.columns[..|d.columns|] == d.columns && r.columns[|d.columns|..] == DefaultColumns(id, columnIds, now)
    ensures r.cards == d.cards && r.tasks == d.tasks && r.notes == d.notes
    ensures r.currentProjectId == Some(id)
  {
    d.(projects := d.projects + [Project(id, name, description, now, now)],
       columns := d.columns + DefaultColumns(id, columnIds, now),
       currentProjectId := Some(id))
  }

  /** `updateProject`: the projects with identifier `id` are merged with `u`. */
  function UpdateProjects(ps: seq<Project>, id: string, u: ProjectPatch, now: int): (r: seq<Project>)
    ensures |r| == |ps|
    ensures forall i :: 0 <= i < |ps| ==>
      r[i] == if ps[i].id == id then MergeProject(ps[i], u, now) else ps[i]
  {
    MapIf(ps, ProjectIs(id), MergeProjectWith(u, now))
  }

  /** `deleteProject`: the cascade over all five collections, and the current
      project moved to the first remaining project when it was the deleted one. */
  function WithoutProject(d: AppData, id: string): (r: AppData)
  {
    var projectColumnIds := Map(Filter(d.columns, ColumnInProject(id)), ColumnIdOf);
    var remaining := Filter(d.projects, ProjectIsNot(id));
    AppData(
      remaining,
      Filter(d.columns, ColumnNotInProject(id)),
      Filter(d.cards, CardNotInColumns(projectColumnIds)),
      Filter(d.tasks, TaskNotInProject(id)),
      Filter(d.notes, NoteNotInProject(id)),
      if d.currentProjectId == Some(id) then
        (if |remaining| > 0 then Some(remaining[0].id) else None)
      else d.currentProjectId)
  }

  /** A card survives `deleteProject` exactly when its column is not one of the project's. */
  lemma WithoutProjectCard(d: AppData, id: string, k: Card)
    ensures k in WithoutProject(d, id).cards <==>
      k in d.cards && !(exists c :: c in d.columns && c.projectId == id && c.id == k.columnId)
  {
    var own := Filter(d.columns, ColumnInProject(id));
    var ids := Map(own, ColumnIdOf);
    FilterMembers(d.cards, CardNotInColumns(ids), k);
    if k.columnId in ids {
      var j :| 0 <= j < |ids| && ids[j] == k.columnId;
      assert own[j] in d.columns && own[j].projectId == id && own[j].id == k.columnId;
    }
    if c :| c in d.columns && c.projectId == id && c.id == k.columnId {
      FilterMembers(d.columns, ColumnInProject(id), c);
      var j :| 0 <= j < |own| && own[j] == c;
      assert ids[j] == k.columnId;
    }
  }

  /** What `deleteProject(id)` leaves: exactly the records not belonging to the
      project, where a card belongs to it through its column. */
  lemma DeleteProjectCascade(d: AppData, id: string)
    ensures forall p :: p in WithoutProject(d, id).projects <==> p in d.projects && p.id != id
    ensures forall c :: c in WithoutProject(d, id).columns <==> c in d.columns && c.projectId != id
    ensures forall k :: k in WithoutProject(d, id).cards <==>
      k in d.cards && !(exists c :: c in d.columns && c.projectId == id && c.id == k.columnId)
    ensures forall t :: t in WithoutProject(d, id).tasks <==> t in d.tasks && t.projectId != id
    ensures forall n :: n in WithoutProject(d, id).notes <==> n in d.notes && n.projectId != id
  {
    var r := WithoutProject(d, id);
    forall p ensures p in r.projects <==> p in d.projects && p.id != id {
      FilterMembers(d.projects, ProjectIsNot(id), p);
    }
    forall c ensures c in r.columns <==> c in d.columns && c.projectId != id {
      FilterMembers(d.columns, ColumnNotInProject(id), c);
    }
    forall k ensures k in r.cards <==>
      k in d.cards && !(exists c :: c in d.columns && c.projectId == id && c.id == k.columnId)
    {
      WithoutProjectCard(d, id, k);
    }
    forall t ensures t in r.tasks <==> t in d.tasks && t.projectId != id {
      FilterMembers(d.tasks, TaskNotInProject(id), t);
    }
    forall n ensures n in r.notes <==> n in d.notes && n.projectId != id {
      FilterMembers(d.notes, NoteNotInProject(id), n);
    }
  }

  /** After `deleteProject` the current project is never the deleted one: it is
      kept when another project was current, and otherwise becomes the first
      remaining project in store order, or none. */
  lemma DeleteProjectCurrent(d: AppData, id: string)
    ensures var r := WithoutProject(d, id);
      (d.currentProjectId != Some(id) ==> r.currentProjectId == d.currentProjectId)
      && (d.currentProjectId == Some(id) ==>
            (r.projects == [] ==> r.currentProjectId == None)
            && (r.projects != [] ==> r.currentProjectId == Some(r.projects[0].id)))
      && r.currentProjectId != Some(id)
  {
  }

  /** A project other than the deleted one survives `deleteProject`. */
  lemma DeleteProjectKeepsProject(d: AppData, id: string, pid: string)
    requires HasProject(d, pid) && pid != id
    ensures HasProject(WithoutProject(d, id), pid)
  {
    var j :| 0 <= j < |d.projects| && d.projects[j].id == pid;
    var r := WithoutProject(d, id).projects;
    FilterMembers(d.projects, ProjectIsNot(id), d.projects[j]);
    var j' :| 0 <= j' < |r| && r[j'] == d.projects[j];
  }

  /** A column that no column of the deleted project shares an identifier with
      survives `deleteProject`. */
  lemma DeleteProjectKeepsColumn(d: AppData, id: string, cid: string)
    requires HasColumn(d, cid)
    requires cid !in Map(Filter(d.columns, ColumnInProject(id)), ColumnIdOf)
    ensures HasColumn(WithoutProject(d, id), cid)
  {
    var own := Filter(d.columns, ColumnInProject(id));
    var j :| 0 <= j < |d.columns| && d.columns[j].id == cid;
    var c := d.columns[j];
    if c.projectId == id {
      FilterMembers(d.columns, ColumnInProject(id), c);
    }
    var r := WithoutProject(d, id).columns;
    FilterMembers(d.columns, ColumnNotInProject(id), c);
    var j' :| 0 <= j' < |r| && r[j'] == c;
  }

  /** The cascade leaves no dangling reference behind. */
  lemma DeleteProjectKeepsLinked(d: AppData, id: string)
    requires Linked(d)
    ensures Linked(WithoutProject(d, id))
  {
    var r := WithoutProject(d, id);
    forall i | 0 <= i < |r.columns| ensures HasProject(r, r.columns[i].projectId) {
      assert r.columns[i] in d.columns;
      DeleteProjectKeepsProject(d, id, r.columns[i].projectId);
    }
    forall i | 0 <= i < |r.cards| ensures HasColumn(r, r.cards[i].columnId) {
      assert r.cards[i] in d.cards;
      DeleteProjectKeepsColumn(d, id, r.cards[i].columnId);
    }
    forall i | 0 <= i < |r.tasks| ensures HasProject(r, r.tasks[i].projectId) {
      assert r.tasks[i] in d.tasks;
      DeleteProjectKeepsProject(d, id, r.tasks[i].projectId);
    }
    forall i | 0 <= i < |r.notes| ensures HasProject(r, r.notes[i].projectId) {
      assert r.notes[i] in d.notes;
      DeleteProjectKeepsProject(d, id, r.notes[i].projectId);
    }
  }

  // ---- columns ----

  /** `Math.max(...orders) + 1`, or `-1 + 1` for no orders: the order a record
      appended after `orders` receives. */
  function NextOrder(orders: seq<int>): (r: int)
    ensures orders == [] ==> r == 0
    ensures forall i :: 0 <= i < |orders| ==> orders[i] < r
    ensures orders != [] ==> exists i :: 0 <= i < |orders| && orders[i] == r - 1
  {
    if orders == [] then 0
    else
      var rest := NextOrder(orders[1..]);
      if orders[1..] == [] || orders[0] + 1 >= rest then orders[0] + 1
      else
        assert exists i :: 0 <= i < |orders[1..]| && orders[1..][i] == rest - 1;
        var i :| 0 <= i < |orders[1..]| && orders[1..][i] == rest - 1;
        assert orders[i + 1] == rest - 1;
        rest
  }

  /** The next order within a group tops the order of every member of the group. */
  lemma NextOrderAbove<T>(s: seq<T>, p: T -> bool, order: T -> int, x: T)
    requires x in s && p(x)
    ensures order(x) < NextOrder(Map(Filter(s, p), order))
  {
    var own := Filter(s, p);
    FilterMembers(s, p, x);
    var j :| 0 <= j < |own| && own[j] == x;
    assert Map(own, order)[j] == order(x);
  }

  /** The next order within a non-empty group is one more than the order of
      some member of the group: it is the group's maximum plus one. */
  lemma NextOrderAttained<T>(s: seq<T>, p: T -> bool, order: T -> int, x: T)
    requires x in s && p(x)
    ensures exists y :: y in s && p(y) && order(y) == NextOrder(Map(Filter(s, p), order)) - 1
  {
    var own := Filter(s, p);
    var orders := Map(own, order);
    FilterMembers(s, p, x);
    assert orders != [];
    var i :| 0 <= i < |orders| && orders[i] == NextOrder(orders) - 1;
    assert own[i] in s && p(own[i]) && order(own[i]) == orders[i];
  }

  /** An empty group starts at order 0. */
  lemma NextOrderEmpty<T>(s: seq<T>, p: T -> bool, order: T -> int)
    requires forall x :: x in s ==> !p(x)
    ensures NextOrder(Map(Filter(s, p), order)) == 0
  {
    assert forall i :: 0 <= i < |s| ==> !p(s[i]);
    FilterNone(s, p);
  }

  /** `createColumn(projectId, title)`: the new column's `order` is one more
      than the largest order among the project's existing columns, or 0 when
      the project has none. */
  function NewColumn(columns: seq<Column>, id: string, projectId: string, title: string, now: int): (r: Column)
    ensures r.id == id && r.projectId == projectId && r.title == title && r.createdAt == now
    ensures forall c :: c in columns && c.projectId == projectId ==> c.order < r.order
    ensures (exists c :: c in columns && c.projectId == projectId) ==>
      exists c :: c in columns && c.projectId == projectId && c.order == r.order - 1
    ensures (forall c :: c in columns ==> c.projectId != projectId) ==> r.order == 0
  {
    var next := NextOrder(Map(Filter(columns, ColumnInProject(projectId)), ColumnOrderOf));
    assert forall x :: x in columns && x.projectId == projectId ==> x.order < next by {
      forall x | x in columns && x.projectId == projectId ensures x.order < next {
        NextOrderAbove(columns, ColumnInProject(projectId), ColumnOrderOf, x);
      }
    }
    assert (exists x :: x in columns && x.projectId == projectId) ==>
      exists y :: y in columns && y.projectId == projectId && y.order == next - 1 by {
      if x :| x in columns && x.projectId == projectId {
        NextOrderAttained(columns, ColumnInProject(projectId), ColumnOrderOf, x);
      }
    }
    assert (forall x :: x in columns ==> x.projectId != projectId) ==> next == 0 by {
      if forall x :: x in columns ==> x.projectId != projectId {
        NextOrderEmpty(columns, ColumnInProject(projectId), ColumnOrderOf);
      }
    }
    Column(id, projectId, title, next, now)
  }

  /** `updateColumn(id, title)`: only the title of the matching columns changes. */
  function UpdateColumns(cs: seq<Column>, id: string, title: string): (r: seq<Column>)
    ensures |r| == |cs|
    ensures forall i :: 0 <= i < |cs| ==>
      r[i] == if cs[i].id == id then cs[i].(title := title) else cs[i]
  {
    MapIf(cs, ColumnIs(id), Retitle(title))
  }

  /** `deleteColumn(id)`: the column and the cards in it go; tasks and notes stay. */
  function WithoutColumn(d: AppData, id: string): (r: AppData)
    ensures r.projects == d.projects && r.tasks == d.tasks && r.notes == d.notes
    ensures r.currentProjectId == d.currentProjectId
    ensures forall c :: c in r.columns <==> c in d.columns && c.id != id
    ensures forall k :: k in r.cards <==> k in d.cards && k.columnId != id
  {
    var r := d.(columns := Filter(d.columns, ColumnIsNot(id)), cards := Filter(d.cards, CardNotInColumn(id)));
    assert forall c :: c in r.columns <==> c in d.columns && c.id != id by {
      forall c ensures c in r.columns <==> c in d.columns && c.id != id {
        FilterMembers(d.columns, ColumnIsNot(id), c);
      }
    }
    assert forall k :: k in r.cards <==> k in d.cards && k.columnId != id by {
      forall k ensures k in r.cards <==> k in d.cards && k.columnId != id {
        FilterMembers(d.cards, CardNotInColumn(id), k);
      }
    }
    r
  }

  /** A card of a linked document names an existing column. */
  lemma LinkedCardColumn(d: AppData, k: Card)
    requires Linked(d) && k in d.cards
    ensures HasColumn(d, k.columnId)
  {
    var m :| 0 <= m < |d.cards| && d.cards[m] == k;
  }

  /** A column other than the deleted one is still found after `deleteColumn`. */
  lemma KeptColumnFound(d: AppData, id: string, cid: string)
    requires HasColumn(d, cid) && cid != id
    ensures HasColumn(WithoutColumn(d, id), cid)
  {
    var r := WithoutColumn(d, id);
    var j :| 0 <= j < |d.columns| && d.columns[j].id == cid;
    assert d.columns[j] in r.columns;
    var j' :| 0 <= j' < |r.columns| && r.columns[j'] == d.columns[j];
  }

  /** Each card left by `deleteColumn` was in another column, which is still there. */
  lemma DeleteColumnCardsLinked(d: AppData, id: string)
    requires Linked(d)
    ensures var r := WithoutColumn(d, id);
      forall i :: 0 <= i < |r.cards| ==> HasColumn(r, r.cards[i].columnId)
  {
    var r := WithoutColumn(d, id);
    forall i | 0 <= i < |r.cards| ensures HasColumn(r, r.cards[i].columnId) {
      var k := r.cards[i];
      assert k in r.cards;
      LinkedCardColumn(d, k);
      KeptColumnFound(d, id, k.columnId);
    }
  }

  /** A document that keeps the projects, tasks and notes, keeps only existing
      columns, and whose cards name existing columns, is linked again. */
  lemma LinkedAfterRemoval(d: AppData, r: AppData)
    requires Linked(d)
    requires r.projects == d.projects && r.tasks == d.tasks && r.notes == d.notes
    requires forall c :: c in r.columns ==> c in d.columns
    requires forall i :: 0 <= i < |r.cards| ==> HasColumn(r, r.cards[i].columnId)
    ensures Linked(r)
  {
    forall i | 0 <= i < |r.columns| ensures HasProject(r, r.columns[i].projectId) {
      assert r.columns[i] in d.columns;
      var m :| 0 <= m < |d.columns| && d.columns[m] == r.columns[i];
    }
  }

  /** `deleteColumn` keeps the strong references intact: each remaining card's
      column was not the deleted one. */
  lemma DeleteColumnKeepsLinked(d: AppData, id: string)
    requires Linked(d)
    ensures Linked(WithoutColumn(d, id))
  {
    DeleteColumnCardsLinked(d, id);
    LinkedAfterRemoval(d, WithoutColumn(d, id));
  }

  /** `deleteColumn` does not unlink tasks from the cards it removes: a task
      linked to a card of the deleted column is left pointing at nothing. */
  lemma DeleteColumnLeavesLinksDangling()
    ensures var d := AppData(
        [Project("p", "P", None, 0, 0)],
        [Column("c", "p", "To Do", 0, 0)],
        [Card("k", "K", None, Some(P2), "c", 0, 0, 0, 0, None, false, None, None)],
        [Task("t", "p", "T", None, Todo, P2, None, Some("k"), None, None, 0, 0)],
        [], Some("p"));
      WeakLinked(d) && !WeakLinked(WithoutColumn(d, "c"))
  {
    var d := AppData(
        [Project("p", "P", None, 0, 0)],
        [Column("c", "p", "To Do", 0, 0)],
        [Card("k", "K", None, Some(P2), "c", 0, 0, 0, 0, None, false, None, None)],
        [Task("t", "p", "T", None, Todo, P2, None, Some("k"), None, None, 0, 0)],
        [], Some("p"));
    assert HasCard(d, "k") by { assert d.cards[0].id == "k"; }
    var r := WithoutColumn(d, "c");
    assert r.cards == [];
    assert r.tasks[0].cardId == Some("k");
  }

  /** The identifiers of the columns passed to `reorderColumns`. */
  function ColumnNotListed(rs: seq<Column>): Column -> bool {
    (c: Column) => c.id !in Map(rs, ColumnIdOf)
  }

  /** `reorderColumns(rs)`: the columns not listed in `rs` (by identifier), in
      their previous relative order, followed by `rs` as given. */
  function ReorderedColumns(prev: seq<Column>, rs: seq<Column>): (r: seq<Column>)
    ensures |r| >= |rs| && r[|r| - |rs|..] == rs
    ensures forall c :: c in r[..|r| - |rs|] <==> c in prev && c.id !in Map(rs, ColumnIdOf)
    ensures Subsequence(r[..|r| - |rs|], prev)
  {
    var others := Filter(prev, ColumnNotListed(rs));
    var r := others + rs;
    assert r[..|others|] == others;
    FilterSubsequence(prev, ColumnNotListed(rs));
    assert forall c :: c in others <==> c in prev && c.id !in Map(rs, ColumnIdOf) by {
      forall c ensures c in others <==> c in prev && c.id !in Map(rs, ColumnIdOf) {
        FilterMembers(prev, ColumnNotListed(rs), c);
      }
    }
    r
  }

  function ColumnListed(rs: seq<Column>): Column -> bool {
    (c: Column) => c.id in Map(rs, ColumnIdOf)
  }

  /** No order value is recomputed: every column of the result was either
      already stored or passed in. When `rs` holds exactly the stored columns it
      names (in any order), the result is a permutation of the stored columns. */
  lemma ReorderColumnsPermutes(prev: seq<Column>, rs: seq<Column>)
    ensures forall c :: c in ReorderedColumns(prev, rs) ==> c in prev || c in rs
    ensures multiset(rs) == multiset(Filter(prev, ColumnListed(rs))) ==>
      multiset(ReorderedColumns(prev, rs)) == multiset(prev)
  {
    var r := ReorderedColumns(prev, rs);
    var others := Filter(prev, ColumnNotListed(rs));
    assert r == others + rs;
    FilterSplit(prev, ColumnListed(rs), ColumnNotListed(rs));
  }

  // ---- cards ----

  /** `createCard`: priority `p2` unless one is given, the new card's `order`
      is one more than the largest order in its column (0 for an empty column),
      and all three timestamps are `now`. */
  function NewCard(cards: seq<Card>, id: string, columnId: string, title: string, description: Option<string>,
                   priority: Option<Priority>, dueDate: Option<int>, now: int): (r: Card)
    ensures r.id == id && r.columnId == columnId && r.title == title && r.description == description
    ensures r.dueDate == dueDate
    ensures r.priority == Some(priority.GetOr(P2))
    ensures r.createdAt == now && r.updatedAt == now && r.columnChangedAt == now
    ensures !r.archived && r.archivedAt == None && r.archiveReason == None
    ensures forall c :: c in cards && c.columnId == columnId ==> c.order < r.order
    ensures (exists c :: c in cards && c.columnId == columnId) ==>
      exists c :: c in cards && c.columnId == columnId && c.order == r.order - 1
    ensures (forall c :: c in cards ==> c.columnId != columnId) ==> r.order == 0
  {
    var next := NextOrder(Map(Filter(cards, CardInColumn(columnId)), CardOrderOf));
    assert forall x :: x in cards && x.columnId == columnId ==> x.order < next by {
      forall x | x in cards && x.columnId == columnId ensures x.order < next {
        NextOrderAbove(cards, CardInColumn(columnId), CardOrderOf, x);
      }
    }
    assert (exists x :: x in cards && x.columnId == columnId) ==>
      exists y :: y in cards && y.columnId == columnId && y.order == next - 1 by {
      if x :| x in cards && x.columnId == columnId {
        NextOrderAttained(cards, CardInColumn(columnId), CardOrderOf, x);
      }
    }
    assert (forall x :: x in cards ==> x.columnId != columnId) ==> next == 0 by {
      if forall x :: x in cards ==> x.columnId != columnId {
        NextOrderEmpty(cards, CardInColumn(columnId), CardOrderOf);
      }
    }
    Card(id, title, description, Some(priority.GetOr(P2)), columnId, next,
         now, now, now, dueDate, false, None, None)
  }

  /** `updateCard`: the matching cards are merged with `u`. */
  function UpdateCards(cs: seq<Card>, id: string, u: CardPatch, now: int): (r: seq<Card>)
    ensures |r| == |cs|
    ensures forall i :: 0 <= i < |cs| ==>
      r[i] == if cs[i].id == id then MergeCard(cs[i], u, now) else cs[i]
  {
    MapIf(cs, CardIs(id), MergeCardWith(u, now))
  }

  /** `deleteCard(id)`: the card goes and the tasks and notes linked to it are unlinked. */
  function WithoutCard(d: AppData, id: string): (r: AppData)
    ensures r.projects == d.projects && r.columns == d.columns && r.currentProjectId == d.currentProjectId
    ensures forall k :: k in r.cards <==> k in d.cards && k.id != id
    ensures |r.tasks| == |d.tasks| && |r.notes| == |d.notes|
    ensures forall i :: 0 <= i < |d.tasks| ==>
      r.tasks[i] == if d.tasks[i].cardId == Some(id) then d.tasks[i].(cardId := None) else d.tasks[i]
    ensures forall i :: 0 <= i < |d.notes| ==>
      r.notes[i] == if d.notes[i].cardId == Some(id) then d.notes[i].(cardId := None) else d.notes[i]
  {
    var r := d.(cards := Filter(d.cards, CardIsNot(id)),
                tasks := MapIf(d.tasks, TaskLinkedTo(id), UnlinkTask()),
                notes := MapIf(d.notes, NoteLinkedTo(id), UnlinkNote()));
    assert forall k :: k in r.cards <==> k in d.cards && k.id != id by {
      forall k ensures k in r.cards <==> k in d.cards && k.id != id {
        FilterMembers(d.cards, CardIsNot(id), k);
      }
    }
    r
  }

  /** A card other than the deleted one is still found after `deleteCard`. */
  lemma KeptCardFound(d: AppData, id: string, cid: string)
    requires HasCard(d, cid) && cid != id
    ensures HasCard(WithoutCard(d, id), cid)
  {
    var r := WithoutCard(d, id);
    var j :| 0 <= j < |d.cards| && d.cards[j].id == cid;
    assert d.cards[j] in r.cards;
    var j' :| 0 <= j' < |r.cards| && r.cards[j'] == d.cards[j];
  }

  /** Task and note links to the remaining cards survive `deleteCard`. */
  lemma DeleteCardWeakLinked(d: AppData, id: string)
    requires WeakLinked(d)
    ensures WeakLinked(WithoutCard(d, id))
  {
    var r := WithoutCard(d, id);
    forall i | 0 <= i < |r.tasks| && r.tasks[i].cardId.Some? ensures HasCard(r, r.tasks[i].cardId.value) {
      KeptCardFound(d, id, r.tasks[i].cardId.value);
    }
    forall i | 0 <= i < |r.notes| && r.notes[i].cardId.Some? ensures HasCard(r, r.notes[i].cardId.value) {
      KeptCardFound(d, id, r.notes[i].cardId.value);
    }
  }

  /** No task or note still names the deleted card. */
  lemma DeleteCardUnlinks(d: AppData, id: string)
    ensures var r := WithoutCard(d, id);
      (forall i :: 0 <= i < |r.tasks| ==> r.tasks[i].cardId != Some(id))
      && (forall i :: 0 <= i < |r.notes| ==> r.notes[i].cardId != Some(id))
  {
  }

  /** After `deleteCard` nothing links to the deleted card, and links to the
      remaining cards still lead somewhere. */
  lemma DeleteCardKeepsLinks(d: AppData, id: string)
    ensures var r := WithoutCard(d, id);
      (forall i :: 0 <= i < |r.tasks| ==> r.tasks[i].cardId != Some(id))
      && (forall i :: 0 <= i < |r.notes| ==> r.notes[i].cardId != Some(id))
    ensures WeakLinked(d) ==> WeakLinked(WithoutCard(d, id))
    ensures Linked(d) ==> Linked(WithoutCard(d, id))
  {
    DeleteCardUnlinks(d, id);
    if WeakLinked(d) {
      DeleteCardWeakLinked(d, id);
    }
    if Linked(d) {
      DeleteCardLinked(d, id);
    }
  }

  /** `deleteCard` removes no project or column, so the references stay resolved. */
  lemma DeleteCardLinked(d: AppData, id: string)
    requires Linked(d)
    ensures Linked(WithoutCard(d, id))
  {
    var r := WithoutCard(d, id);
    forall i | 0 <= i < |r.cards| ensures HasColumn(r, r.cards[i].columnId) {
      assert r.cards[i] in r.cards;
      LinkedCardColumn(d, r.cards[i]);
    }
  }

  /** A card of `moveCard`'s renumbered target list: its index becomes its
      `order`, and the moved card is stamped with `now`. */
  function Restamp(c: Card, index: int, cardId: string, isColumnChange: bool, now: int): Card {
    c.(order := index,
       updatedAt := if c.id == cardId then now else c.updatedAt,
       columnChangedAt := if c.id == cardId && isColumnChange then now else c.columnChangedAt)
  }

  function Renumber(s: seq<Card>, cardId: string, isColumnChange: bool, now: int): (r: seq<Card>)
    ensures |r| == |s|
  {
    seq(|s|, i requires 0 <= i < |s| => Restamp(s[i], i, cardId, isColumnChange, now))
  }

  function CardInColumnExcept(columnId: string, cardId: string): Card -> bool {
    (c: Card) => c.columnId == columnId && c.id != cardId
  }

  function CardOutsideColumnExcept(columnId: string, cardId: string): Card -> bool {
    (c: Card) => c.columnId != columnId && c.id != cardId
  }

  /** The target column's other cards by ascending order, with the moved card
      spliced in at `newOrder`. */
  function TargetList(cards: seq<Card>, card: Card, target: string, newOrder: int): seq<Card> {
    InsertAt(SortByOrder(Filter(cards, CardInColumnExcept(target, card.id)), CardOrderOf),
             newOrder, card.(columnId := target))
  }

  /** `moveCard(cardId, target, newOrder)`. */
  function MovedCards(cards: seq<Card>, cardId: string, target: string, newOrder: int, now: int): seq<Card> {
    var i := FirstIndex(cards, CardIs(cardId));
    if i == |cards| then cards
    else
      var card := cards[i];
      Filter(cards, CardOutsideColumnExcept(target, cardId))
      + Renumber(TargetList(cards, card, target, newOrder), cardId, card.columnId != target, now)
  }

  /** Moving a card that is not stored changes nothing. */
  lemma MoveCardAbsent(cards: seq<Card>, cardId: string, target: string, newOrder: int, now: int)
    requires forall i :: 0 <= i < |cards| ==> cards[i].id != cardId
    ensures MovedCards(cards, cardId, target, newOrder, now) == cards
  {
  }

  /** Every card of the target list sits in the target column. */
  lemma TargetListInColumn(cards: seq<Card>, card: Card, target: string, newOrder: int)
    ensures forall x :: x in TargetList(cards, card, target, newOrder) ==> x.columnId == target
  {
    var own := Filter(cards, CardInColumnExcept(target, card.id));
    var sorted := SortByOrder(own, CardOrderOf);
    forall x | x in TargetList(cards, card, target, newOrder) ensures x.columnId == target {
      assert x in multiset(TargetList(cards, card, target, newOrder));
      if x != card.(columnId := target) {
        assert x in multiset(sorted);
        assert x in multiset(own);
      }
    }
  }

  /** `moveCard` of a stored card: the cards outside the target column followed
      by the renumbered target list. */
  lemma MoveCardFound(cards: seq<Card>, cardId: string, target: string, newOrder: int, now: int, i: nat)
    requires i < |cards| && cards[i].id == cardId
    requires forall j :: 0 <= j < i ==> cards[j].id != cardId
    ensures MovedCards(cards, cardId, target, newOrder, now)
         == Filter(cards, CardOutsideColumnExcept(target, cardId))
            + Renumber(TargetList(cards, cards[i], target, newOrder), cardId, cards[i].columnId != target, now)
  {
    assert FirstIndex(cards, CardIs(cardId)) == i;
  }

  /** Every card of a renumbered target list sits in the target column. */
  lemma RenumberInColumn(cards: seq<Card>, card: Card, target: string, newOrder: int, isColumnChange: bool, now: int)
    ensures var r := Renumber(TargetList(cards, card, target, newOrder), card.id, isColumnChange, now);
      forall j :: 0 <= j < |r| ==> r[j].columnId == target && r[j].order == j
  {
    var list := TargetList(cards, card, target, newOrder);
    TargetListInColumn(cards, card, target, newOrder);
    var r := Renumber(list, card.id, isColumnChange, now);
    forall j | 0 <= j < |r| ensures r[j].columnId == target && r[j].order == j {
      assert list[j] in list;
    }
  }

  /** The target column after `moveCard` of a stored card is the renumbered target list. */
  lemma MoveCardTargetColumn(cards: seq<Card>, cardId: string, target: string, newOrder: int, now: int, i: nat)
    requires i < |cards| && cards[i].id == cardId
    requires forall j :: 0 <= j < i ==> cards[j].id != cardId
    ensures Filter(MovedCards(cards, cardId, target, newOrder, now), CardInColumn(target))
         == Renumber(TargetList(cards, cards[i], target, newOrder), cardId, cards[i].columnId != target, now)
  {
    var outside := Filter(cards, CardOutsideColumnExcept(target, cardId));
    var renumbered := Renumber(TargetList(cards, cards[i], target, newOrder), cardId, cards[i].columnId != target, now);
    MoveCardFound(cards, cardId, target, newOrder, now, i);
    FilterConcat(outside, renumbered, CardInColumn(target));
    FilterNone(outside, CardInColumn(target));
    RenumberInColumn(cards, cards[i], target, newOrder, cards[i].columnId != target, now);
    FilterAll(renumbered, CardInColumn(target));
  }

  /** Renumbering keeps identifiers and gives each card its index as `order`. */
  lemma RenumberIds(s: seq<Card>, cardId: string, isColumnChange: bool, now: int)
    ensures Map(Renumber(s, cardId, isColumnChange, now), CardIdOf) == Map(s, CardIdOf)
  {
  }

  /** After `moveCard` of a stored card, the target column holds exactly its
      other cards by ascending order with the moved card spliced in at
      `newOrder`, renumbered `0..n-1`; the moved card carries `updatedAt = now`,
      and `columnChangedAt = now` exactly when its column changed. */
  lemma MoveCardTarget(cards: seq<Card>, cardId: string, target: string, newOrder: int, now: int, i: nat)
    requires i < |cards| && cards[i].id == cardId
    requires forall j :: 0 <= j < i ==> cards[j].id != cardId
    ensures var r := Filter(MovedCards(cards, cardId, target, newOrder, now), CardInColumn(target));
      var others := SortByOrder(Filter(cards, CardInColumnExcept(target, cardId)), CardOrderOf);
      var k := SpliceIndex(newOrder, |others|);
      |r| == |others| + 1
      && Map(r, CardIdOf) == InsertAt(Map(others, CardIdOf), newOrder, cardId)
      && (forall j :: 0 <= j < |r| ==> r[j].order == j && r[j].columnId == target)
      && r[k] == cards[i].(columnId := target, order := k, updatedAt := now,
                           columnChangedAt := if cards[i].columnId != target then now else cards[i].columnChangedAt)
  {
    var card := cards[i];
    var list := TargetList(cards, card, target, newOrder);
    MoveCardTargetColumn(cards, cardId, target, newOrder, now, i);
    TargetListInColumn(cards, card, target, newOrder);
    var others := SortByOrder(Filter(cards, CardInColumnExcept(target, cardId)), CardOrderOf);
    MapInsertAt(others, newOrder, card.(columnId := target), CardIdOf);
    RenumberIds(list, cardId, card.columnId != target, now);
    var r := Renumber(list, cardId, card.columnId != target, now);
    forall j | 0 <= j < |r| ensures r[j].order == j && r[j].columnId == target {
      assert list[j] in list;
    }
  }

  /** After `moveCard` of a stored card, the other cards of the target column
      keep every field but `order`, which becomes their new index: those before
      the splice position stay in place, those after it move one down. */
  lemma MoveCardTargetKept(cards: seq<Card>, cardId: string, target: string, newOrder: int, now: int, i: nat)
    requires i < |cards| && cards[i].id == cardId
    requires forall j :: 0 <= j < i ==> cards[j].id != cardId
    ensures var r := Filter(MovedCards(cards, cardId, target, newOrder, now), CardInColumn(target));
      var others := SortByOrder(Filter(cards, CardInColumnExcept(target, cardId)), CardOrderOf);
      var k := SpliceIndex(newOrder, |others|);
      |r| == |others| + 1
      && (forall j :: 0 <= j < k ==> r[j] == others[j].(order := j))
      && (forall j :: k < j < |r| ==> r[j] == others[j - 1].(order := j))
  {
    var card := cards[i];
    var r := Filter(MovedCards(cards, cardId, target, newOrder, now), CardInColumn(target));
    MoveCardTargetColumn(cards, cardId, target, newOrder, now, i);
    assert r == Renumber(TargetList(cards, card, target, newOrder), card.id, card.columnId != target, now);
    TargetListOthers(cards, card, target, newOrder, now);
  }

  /** Renumbering a list with `x` spliced in keeps every field but `order` of
      the cards other than the moved one. */
  lemma RenumberInserted(others: seq<Card>, x: Card, newOrder: int, cardId: string, isColumnChange: bool, now: int)
    requires forall j :: 0 <= j < |others| ==> others[j].id != cardId
    ensures var k := SpliceIndex(newOrder, |others|);
      var r := Renumber(InsertAt(others, newOrder, x), cardId, isColumnChange, now);
      (forall j :: 0 <= j < k ==> r[j] == others[j].(order := j))
      && (forall j :: k < j < |r| ==> r[j] == others[j - 1].(order := j))
  {
    var k := SpliceIndex(newOrder, |others|);
    var list := InsertAt(others, newOrder, x);
    forall j | 0 <= j < k ensures list[j] == others[j] {
      assert list[..k][j] == others[..k][j];
    }
    forall j | k < j < |list| ensures list[j] == others[j - 1] {
      assert list[k + 1..][j - k - 1] == others[k..][j - k - 1];
    }
  }

  /** The other cards of the renumbered target list keep every field but `order`. */
  lemma TargetListOthers(cards: seq<Card>, card: Card, target: string, newOrder: int, now: int)
    ensures var others := SortByOrder(Filter(cards, CardInColumnExcept(target, card.id)), CardOrderOf);
      var k := SpliceIndex(newOrder, |others|);
      var r := Renumber(TargetList(cards, card, target, newOrder), card.id, card.columnId != target, now);
      (forall j :: 0 <= j < k ==> r[j] == others[j].(order := j))
      && (forall j :: k < j < |r| ==> r[j] == others[j - 1].(order := j))
  {
    var inside := Filter(cards, CardInColumnExcept(target, card.id));
    var others := SortByOrder(inside, CardOrderOf);
    forall j | 0 <= j < |others| ensures others[j].id != card.id {
      assert others[j] in multiset(inside);
    }
    RenumberInserted(others, card.(columnId := target), newOrder, card.id, card.columnId != target, now);
  }

  /** `moveCard` leaves every card outside the target column as it was, in the
      same relative order, except the moved card, which leaves its source column. */
  lemma MoveCardOthers(cards: seq<Card>, cardId: string, target: string, newOrder: int, now: int)
    ensures Filter(MovedCards(cards, cardId, target, newOrder, now), CardNotInColumn(target))
         == Filter(cards, if FirstIndex(cards, CardIs(cardId)) == |cards| then CardNotInColumn(target)
                          else CardOutsideColumnExcept(target, cardId))
  {
    var i := FirstIndex(cards, CardIs(cardId));
    if i < |cards| {
      var card := cards[i];
      var outside := Filter(cards, CardOutsideColumnExcept(target, cardId));
      var list := TargetList(cards, card, target, newOrder);
      var renumbered := Renumber(list, cardId, card.columnId != target, now);
      FilterConcat(outside, renumbered, CardNotInColumn(target));
      FilterAll(outside, CardNotInColumn(target));
      TargetListInColumn(cards, card, target, newOrder);
      forall j | 0 <= j < |renumbered| ensures !CardNotInColumn(target)(renumbered[j]) {
        assert list[j] in list;
      }
      FilterNone(renumbered, CardNotInColumn(target));
    }
  }

  /** The identifiers of the target list: the other cards of the target column
      with the moved card's identifier added once. */
  lemma TargetListIds(cards: seq<Card>, card: Card, target: string, newOrder: int)
    ensures var inside := Filter(cards, CardInColumnExcept(target, card.id));
      multiset(Map(TargetList(cards, card, target, newOrder), CardIdOf))
      == multiset(Map(inside, CardIdOf)) + multiset{card.id}
  {
    var inside := Filter(cards, CardInColumnExcept(target, card.id));
    var sorted := SortByOrder(inside, CardOrderOf);
    MapInsertAt(sorted, newOrder, card.(columnId := target), CardIdOf);
    MapMultiset(sorted, inside, CardIdOf);
  }

  /** With unique identifiers, the cards outside the target column, the other
      cards inside it and the moved card are all the stored cards, each once. */
  lemma MoveCardPartition(cards: seq<Card>, cardId: string, target: string, i: nat)
    requires UniqueBy(cards, CardIdOf)
    requires i < |cards| && cards[i].id == cardId
    ensures var outside := Filter(cards, CardOutsideColumnExcept(target, cardId));
      var inside := Filter(cards, CardInColumnExcept(target, cardId));
      multiset(Map(outside, CardIdOf)) + multiset(Map(inside, CardIdOf)) + multiset{cardId}
      == multiset(Map(cards, CardIdOf))
  {
    var outside := Filter(cards, CardOutsideColumnExcept(target, cardId));
    var inside := Filter(cards, CardInColumnExcept(target, cardId));
    FilterCountDisjoint(cards, CardOutsideColumnExcept(target, cardId), CardInColumnExcept(target, cardId),
                        CardIsNot(cardId));
    FilterRemovesIt(cards, CardIdOf, cardId, CardIsNot(cardId), i);
    var all := outside + inside + [cards[i]];
    assert multiset(all) == multiset(cards);
    MapMultiset(all, cards, CardIdOf);
    MapConcat(outside + inside, [cards[i]], CardIdOf);
    MapConcat(outside, inside, CardIdOf);
  }

  /** With unique identifiers, `moveCard` keeps every identifier as often as
      before: the moved card is taken out once and put back once. */
  lemma MoveCardIds(cards: seq<Card>, cardId: string, target: string, newOrder: int, now: int)
    requires UniqueBy(cards, CardIdOf)
    ensures multiset(Map(MovedCards(cards, cardId, target, newOrder, now), CardIdOf))
         == multiset(Map(cards, CardIdOf))
  {
    var i := FirstIndex(cards, CardIs(cardId));
    if i < |cards| {
      var card := cards[i];
      var outside := Filter(cards, CardOutsideColumnExcept(target, cardId));
      var inside := Filter(cards, CardInColumnExcept(target, cardId));
      var list := TargetList(cards, card, target, newOrder);
      var renumbered := Renumber(list, cardId, card.columnId != target, now);
      MoveCardFound(cards, cardId, target, newOrder, now, i);
      RenumberIds(list, cardId, card.columnId != target, now);
      TargetListIds(cards, card, target, newOrder);
      MoveCardPartition(cards, cardId, target, i);
      MapPartsCount(outside, renumbered, list, inside, cards, CardIdOf, cardId);
    }
  }

  /** With unique identifiers, `moveCard` keeps them unique. */
  lemma MoveCardUnique(cards: seq<Card>, cardId: string, target: string, newOrder: int, now: int)
    requires UniqueBy(cards, CardIdOf)
    ensures UniqueBy(MovedCards(cards, cardId, target, newOrder, now), CardIdOf)
  {
    MoveCardIds(cards, cardId, target, newOrder, now);
    UniqueByIds(MovedCards(cards, cardId, target, newOrder, now), cards, CardIdOf);
  }

  /** With unique identifiers, `moveCard` keeps the number of cards: the moved
      card is taken out once and put back once. */
  lemma MoveCardCount(cards: seq<Card>, cardId: string, target: string, newOrder: int, now: int)
    requires UniqueBy(cards, CardIdOf)
    ensures |MovedCards(cards, cardId, target, newOrder, now)| == |cards|
  {
    var i := FirstIndex(cards, CardIs(cardId));
    if i < |cards| {
      var card := cards[i];
      var inside := Filter(cards, CardInColumnExcept(target, cardId));
      FilterCountDisjoint(cards, CardOutsideColumnExcept(target, cardId), CardInColumnExcept(target, cardId),
                          CardIsNot(cardId));
      FilterRemovesOne(cards, CardIdOf, cardId, CardIsNot(cardId), i);
      assert |SortByOrder(inside, CardOrderOf)| == |inside|;
    }
  }

  // ---- tasks ----

  /** The `data?: Partial<Task>` argument of `createTask`, restricted to the
      properties that could matter; absent data is every field `None`. */
  datatype TaskDraft = TaskDraft(
    status: Option<Status>,
    priority: Option<Priority>,
    description: Option<string>,
    dueDate: Option<int>,
    cardId: Option<string>,
    links: Option<seq<Link>>,
    comments: Option<string>)

  /** `createTask`: status `todo` and priority `p2` unless given; description,
      due date and card are copied; `links` and `comments` are dropped. */
  function NewTask(id: string, projectId: string, title: string, data: TaskDraft, now: int): (r: Task)
    ensures r.id == id && r.projectId == projectId && r.title == title
    ensures r.status == (if data.status.Some? then data.status.value else Todo)
    ensures r.priority == (if data.priority.Some? then data.priority.value else P2)
    ensures r.description == data.description && r.dueDate == data.dueDate && r.cardId == data.cardId
    ensures r.links == None && r.comments == None
    ensures r.createdAt == now && r.updatedAt == now
  {
    Task(id, projectId, title, data.description, data.status.GetOr(Todo), data.priority.GetOr(P2),
         data.dueDate, data.cardId, None, None, now, now)
  }

  /** `updateTask`: the matching tasks are merged with `u`. */
  function UpdateTasks(ts: seq<Task>, id: string, u: TaskPatch, now: int): (r: seq<Task>)
    ensures |r| == |ts|
    ensures forall i :: 0 <= i < |ts| ==>
      r[i] == if ts[i].id == id then MergeTask(ts[i], u, now) else ts[i]
  {
    MapIf(ts, TaskIs(id), MergeTaskWith(u, now))
  }

  // ---- notes ----

  /** `createNote`: content `""` and no card unless given. */
  function NewNote(id: string, projectId: string, title: string, content: Option<string>,
                   cardId: Option<string>, now: int): (r: Note)
    ensures r.id == id && r.projectId == projectId && r.title == title
    ensures r.content == (if content.Some? then content.value else "")
    ensures r.cardId == cardId && r.links == None
    ensures r.createdAt == now && r.updatedAt == now
  {
    Note(id, projectId, title, content.GetOr(""), cardId, None, now, now)
  }

  /** `updateNote`: the matching notes are merged with `u`. */
  function UpdateNotes(ns: seq<Note>, id: string, u: NotePatch, now: int): (r: seq<Note>)
    ensures |r| == |ns|
    ensures forall i :: 0 <= i < |ns| ==>
      r[i] == if ns[i].id == id then MergeNote(ns[i], u, now) else ns[i]
  {
    MapIf(ns, NoteIs(id), MergeNoteWith(u, now))
  }

  // ---- properties shared by the update operations ----

  /** Applying the same update twice at the same instant is applying it once. */
  lemma UpdatesIdempotent(d: AppData, id: string, pu: ProjectPatch, cu: CardPatch, tu: TaskPatch,
                          nu: NotePatch, title: string, now: int)
    ensures UpdateProjects(UpdateProjects(d.projects, id, pu, now), id, pu, now) == UpdateProjects(d.projects, id, pu, now)
    ensures UpdateColumns(UpdateColumns(d.columns, id, title), id, title) == UpdateColumns(d.columns, id, title)
    ensures UpdateCards(UpdateCards(d.cards, id, cu, now), id, cu, now) == UpdateCards(d.cards, id, cu, now)
    ensures UpdateTasks(UpdateTasks(d.tasks, id, tu, now), id, tu, now) == UpdateTasks(d.tasks, id, tu, now)
    ensures UpdateNotes(UpdateNotes(d.notes, id, nu, now), id, nu, now) == UpdateNotes(d.notes, id, nu, now)
  {
  }

  /** An update whose identifier matches no record changes nothing, and no
      update changes an identifier, so uniqueness is kept. */
  lemma UpdatesPreserveValid(d: AppData, id: string, pu: ProjectPatch, cu: CardPatch, tu: TaskPatch,
                             nu: NotePatch, title: string, now: int)
    requires ValidData(d)
    ensures ValidData(d.(projects := UpdateProjects(d.projects, id, pu, now),
                         columns := UpdateColumns(d.columns, id, title),
                         cards := UpdateCards(d.cards, id, cu, now),
                         tasks := UpdateTasks(d.tasks, id, tu, now),
                         notes := UpdateNotes(d.notes, id, nu, now)))
  {
    MapIfUnique(d.projects, ProjectIs(id), MergeProjectWith(pu, now), ProjectIdOf);
    MapIfUnique(d.columns, ColumnIs(id), Retitle(title), ColumnIdOf);
    MapIfUnique(d.cards, CardIs(id), MergeCardWith(cu, now), CardIdOf);
    MapIfUnique(d.tasks, TaskIs(id), MergeTaskWith(tu, now), TaskIdOf);
    MapIfUnique(d.notes, NoteIs(id), MergeNoteWith(nu, now), NoteIdOf);
  }

  /** An update for an identifier no record carries leaves the collection as it is. */
  lemma UpdatesNoMatch(d: AppData, id: string, pu: ProjectPatch, cu: CardPatch, tu: TaskPatch,
                       nu: NotePatch, title: string, now: int)
    requires forall i :: 0 <= i < |d.projects| ==> d.projects[i].id != id
    requires forall i :: 0 <= i < |d.columns| ==> d.columns[i].id != id
    requires forall i :: 0 <= i < |d.cards| ==> d.cards[i].id != id
    requires forall i :: 0 <= i < |d.tasks| ==> d.tasks[i].id != id
    requires forall i :: 0 <= i < |d.notes| ==> d.notes[i].id != id
    ensures UpdateProjects(d.projects, id, pu, now) == d.projects
    ensures UpdateColumns(d.columns, id, title) == d.columns
    ensures UpdateCards(d.cards, id, cu, now) == d.cards
    ensures UpdateTasks(d.tasks, id, tu, now) == d.tasks
    ensures UpdateNotes(d.notes, id, nu, now) == d.notes
  {
  }

  /** The store behind `AppProvider`: the six fields of the document and the
      card selection, which is not persisted. Each method is one action of the
      context; the `useEffect` that clears the selection when
      `currentProjectId` changes runs as part of the action that changed it. */
  class AppStore {
    var projects: seq<Project>
    var columns: seq<Column>
    var cards: seq<Card>
    var tasks: seq<Task>
    var notes: seq<Note>
    var currentProjectId: Option<string>
    var selectedCardId: Option<string>

    function Doc(): AppData
      reads this
    {
      AppData(projects, columns, cards, tasks, notes, currentProjectId)
    }

    ghost predicate Valid()
      reads this
    {
      ValidData(Doc())
    }

    /** The provider starts from a loaded document with no card selected. */
    constructor(d: AppData)
      ensures Doc() == d && selectedCardId == None
    {
      projects, columns, cards, tasks, notes := d.projects, d.columns, d.cards, d.tasks, d.notes;
      currentProjectId := d.currentProjectId;
      selectedCardId := None;
    }

    /** Replaces the document; a change of the current project clears the selection. */
    method Commit(d: AppData)
      modifies this
      ensures Doc() == d
      ensures selectedCardId == if d.currentProjectId == old(currentProjectId) then old(selectedCardId) else None
    {
      var changed := d.currentProjectId != currentProjectId;
      projects, columns, cards, tasks, notes := d.projects, d.columns, d.cards, d.tasks, d.notes;
      currentProjectId := d.currentProjectId;
      if changed {
        selectedCardId := None;
      }
    }

    method SetCurrentProjectId(id: Option<string>)
      modifies this
      ensures Doc() == old(Doc()).(currentProjectId := id)
      ensures selectedCardId == if id == old(currentProjectId) then old(selectedCardId) else None
      ensures old(Valid()) ==> Valid()
    {
      Commit(Doc().(currentProjectId := id));
    }

    method SetSelectedCardId(id: Option<string>)
      modifies this
      ensures Doc() == old(Doc()) && selectedCardId == id
    {
      selectedCardId := id;
    }

    /** `createProject(name, description)` with the fresh identifiers `id` (for
        the project) and `columnIds` (for its default columns). */
    method CreateProject(name: string, description: Option<string>, id: string, columnIds: seq<string>, now: int)
      returns (p: Project)
      requires |columnIds| == 3
      modifies this
      ensures p == Project(id, name, description, now, now)
      ensures Doc() == WithProject(old(Doc()), id, name, description, columnIds, now)
      ensures selectedCardId == if old(currentProjectId) == Some(id) then old(selectedCardId) else None
      ensures old(Valid()) && (forall i :: 0 <= i < |old(projects)| ==> old(projects)[i].id != id)
              && UniqueBy(DefaultColumns(id, columnIds, now), ColumnIdOf)
              && (forall i, j :: 0 <= i < |old(columns)| && 0 <= j < 3 ==> old(columns)[i].id != columnIds[j])
              ==> Valid()
    {
      p := Project(id, name, description, now, now);
      var d := WithProject(Doc(), id, name, description, columnIds, now);
      if Valid() && (forall i :: 0 <= i < |projects| ==> projects[i].id != id)
         && UniqueBy(DefaultColumns(id, columnIds, now), ColumnIdOf)
         && (forall i, j :: 0 <= i < |columns| && 0 <= j < 3 ==> columns[i].id != columnIds[j]) {
        assert forall i :: 0 <= i < |projects| ==> ProjectIdOf(projects[i]) != ProjectIdOf(p);
        AppendFresh(projects, p, ProjectIdOf);
        AppendUnique(columns, DefaultColumns(id, columnIds, now), ColumnIdOf);
      }
      Commit(d);
    }

    method UpdateProject(id: string, u: ProjectPatch, now: int)
      modifies this
      ensures Doc() == old(Doc()).(projects := UpdateProjects(old(projects), id, u, now))
      ensures selectedCardId == old(selectedCardId)
      ensures old(Valid()) ==> Valid()
    {
      if Valid() {
        MapIfUnique(projects, ProjectIs(id), MergeProjectWith(u, now), ProjectIdOf);
      }
      projects := UpdateProjects(projects, id, u, now);
    }

    method DeleteProject(id: string)
      modifies this
      ensures Doc() == WithoutProject(old(Doc()), id)
      ensures selectedCardId == if old(currentProjectId) == Some(id) then None else old(selectedCardId)
      ensures old(Valid()) ==> Valid()
      ensures old(Linked(Doc())) ==> Linked(Doc())
    {
      var d := Doc();
      var r := WithoutProject(d, id);
      if ValidData(d) {
        FilterUnique(d.projects, ProjectIsNot(id), ProjectIdOf);
        FilterUnique(d.columns, ColumnNotInProject(id), ColumnIdOf);
        FilterUnique(d.cards, CardNotInColumns(Map(Filter(d.columns, ColumnInProject(id)), ColumnIdOf)), CardIdOf);
        FilterUnique(d.tasks, TaskNotInProject(id), TaskIdOf);
        FilterUnique(d.notes, NoteNotInProject(id), NoteIdOf);
        DeleteProjectCurrent(d, id);
      }
      if Linked(d) {
        DeleteProjectKeepsLinked(d, id);
      }
      if currentProjectId == Some(id) {
        assert r.currentProjectId != Some(id) by {
          if r.currentProjectId.Some? {
            assert r.projects[0] in d.projects && r.projects[0].id != id;
          }
        }
      }
      Commit(r);
    }

    /** `createColumn(projectId, title)` with the fresh identifier `id`. */
    method CreateColumn(projectId: string, title: string, id: string, now: int) returns (c: Column)
      modifies this
      ensures c == NewColumn(old(columns), id, projectId, title, now)
      ensures Doc() == old(Doc()).(columns := old(columns) + [c])
      ensures selectedCardId == old(selectedCardId)
      ensures old(Valid()) && (forall i :: 0 <= i < |old(columns)| ==> old(columns)[i].id != id) ==> Valid()
    {
      c := NewColumn(columns, id, projectId, title, now);
      if Valid() && (forall i :: 0 <= i < |columns| ==> columns[i].id != id) {
        assert forall i :: 0 <= i < |columns| ==> ColumnIdOf(columns[i]) != ColumnIdOf(c);
        AppendFresh(columns, c, ColumnIdOf);
      }
      columns := columns + [c];
    }

    method UpdateColumn(id: string, title: string)
      modifies this
      ensures Doc() == old(Doc()).(columns := UpdateColumns(old(columns), id, title))
      ensures selectedCardId == old(selectedCardId)
      ensures old(Valid()) ==> Valid()
    {
      if Valid() {
        MapIfUnique(columns, ColumnIs(id), Retitle(title), ColumnIdOf);
      }
      columns := UpdateColumns(columns, id, title);
    }

    method DeleteColumn(id: string)
      modifies this
      ensures Doc() == WithoutColumn(old(Doc()), id)
      ensures selectedCardId == old(selectedCardId)
      ensures old(Valid()) ==> Valid()
      ensures old(Linked(Doc())) ==> Linked(Doc())
    {
      var d := Doc();
      if ValidData(d) {
        FilterUnique(d.columns, ColumnIsNot(id), ColumnIdOf);
        FilterUnique(d.cards, CardNotInColumn(id), CardIdOf);
      }
      if Linked(d) {
        DeleteColumnKeepsLinked(d, id);
      }
      Commit(WithoutColumn(d, id));
    }

    method ReorderColumns(rs: seq<Column>)
      modifies this
      ensures Doc() == old(Doc()).(columns := ReorderedColumns(old(columns), rs))
      ensures selectedCardId == old(selectedCardId)
      ensures old(Valid()) && UniqueBy(rs, ColumnIdOf) ==> Valid()
    {
      var others := Filter(columns, ColumnNotListed(rs));
      if Valid() && UniqueBy(rs, ColumnIdOf) {
        FilterUnique(columns, ColumnNotListed(rs), ColumnIdOf);
        forall i, j | 0 <= i < |others| && 0 <= j < |rs| ensures others[i].id != rs[j].id {
          assert Map(rs, ColumnIdOf)[j] == rs[j].id;
        }
        AppendUnique(others, rs, ColumnIdOf);
      }
      columns := ReorderedColumns(columns, rs);
    }

    /** `createCard(columnId, title, description, priority, dueDate)` with the fresh identifier `id`. */
    method CreateCard(columnId: string, title: string, description: Option<string>, priority: Option<Priority>,
                      dueDate: Option<int>, id: string, now: int) returns (c: Card)
      modifies this
      ensures c == NewCard(old(cards), id, columnId, title, description, priority, dueDate, now)
      ensures Doc() == old(Doc()).(cards := old(cards) + [c])
      ensures selectedCardId == old(selectedCardId)
      ensures old(Valid()) && (forall i :: 0 <= i < |old(cards)| ==> old(cards)[i].id != id) ==> Valid()
    {
      c := NewCard(cards, id, columnId, title, description, priority, dueDate, now);
      if Valid() && (forall i :: 0 <= i < |cards| ==> cards[i].id != id) {
        assert forall i :: 0 <= i < |cards| ==> CardIdOf(cards[i]) != CardIdOf(c);
        AppendFresh(cards, c, CardIdOf);
      }
      cards := cards + [c];
    }

    method UpdateCard(id: string, u: CardPatch, now: int)
      modifies this
      ensures Doc() == old(Doc()).(cards := UpdateCards(old(cards), id, u, now))
      ensures selectedCardId == old(selectedCardId)
      ensures old(Valid()) ==> Valid()
    {
      if Valid() {
        MapIfUnique(cards, CardIs(id), MergeCardWith(u, now), CardIdOf);
      }
      cards := UpdateCards(cards, id, u, now);
    }

    method DeleteCard(id: string)
      modifies this
      ensures Doc() == WithoutCard(old(Doc()), id)
      ensures selectedCardId == if old(selectedCardId) == Some(id) then None else old(selectedCardId)
      ensures old(Valid()) ==> Valid()
      ensures old(Linked(Doc())) ==> Linked(Doc())
      ensures old(WeakLinked(Doc())) ==> WeakLinked(Doc())
    {
      var d := Doc();
      if ValidData(d) {
        FilterUnique(d.cards, CardIsNot(id), CardIdOf);
        MapIfUnique(d.tasks, TaskLinkedTo(id), UnlinkTask(), TaskIdOf);
        MapIfUnique(d.notes, NoteLinkedTo(id), UnlinkNote(), NoteIdOf);
      }
      DeleteCardKeepsLinks(d, id);
      Commit(WithoutCard(d, id));
      if selectedCardId == Some(id) {
        selectedCardId := None;
      }
    }

    /** `moveCard(cardId, target, newOrder)`: the target column's other cards are
        sorted into a fresh list, the moved card is spliced into it in place, and
        the list is renumbered and appended after the cards of other columns. */
    method MoveCard(cardId: string, target: string, newOrder: int, now: int)
      modifies this
      ensures Doc() == old(Doc()).(cards := MovedCards(old(cards), cardId, target, newOrder, now))
      ensures selectedCardId == old(selectedCardId)
      ensures old(Valid()) ==> Valid()
    {
      if Valid() {
        MoveCardUnique(cards, cardId, target, newOrder, now);
      }
      var i := FirstIndex(cards, CardIs(cardId));
      if i == |cards| {
        return;
      }
      var card := cards[i];
      var isColumnChange := card.columnId != target;
      var targetCards := SortByOrder(Filter(cards, CardInColumnExcept(target, cardId)), CardOrderOf);
      targetCards := SpliceInsert(targetCards, newOrder, card.(columnId := target));
      var reorderedTargetCards := Renumber(targetCards, cardId, isColumnChange, now);
      var otherCards := Filter(cards, CardOutsideColumnExcept(target, cardId));
      cards := otherCards + reorderedTargetCards;
    }

    /** `createTask(projectId, title, data)` with the fresh identifier `id`. */
    method CreateTask(projectId: string, title: string, data: TaskDraft, id: string, now: int) returns (t: Task)
      modifies this
      ensures t == NewTask(id, projectId, title, data, now)
      ensures Doc() == old(Doc()).(tasks := old(tasks) + [t])
      ensures selectedCardId == old(selectedCardId)
      ensures old(Valid()) && (forall i :: 0 <= i < |old(tasks)| ==> old(tasks)[i].id != id) ==> Valid()
    {
      t := NewTask(id, projectId, title, data, now);
      if Valid() && (forall i :: 0 <= i < |tasks| ==> tasks[i].id != id) {
        assert forall i :: 0 <= i < |tasks| ==> TaskIdOf(tasks[i]) != TaskIdOf(t);
        AppendFresh(tasks, t, TaskIdOf);
      }
      tasks := tasks + [t];
    }

    method UpdateTask(id: string, u: TaskPatch, now: int)
      modifies this
      ensures Doc() == old(Doc()).(tasks := UpdateTasks(old(tasks), id, u, now))
      ensures selectedCardId == old(selectedCardId)
      ensures old(Valid()) ==> Valid()
    {
      if Valid() {
        MapIfUnique(tasks, TaskIs(id), MergeTaskWith(u, now), TaskIdOf);
      }
      tasks := UpdateTasks(tasks, id, u, now);
    }

    method DeleteTask(id: string)
      modifies this
      ensures Doc() == old(Doc()).(tasks := Filter(old(tasks), TaskIsNot(id)))
      ensures selectedCardId == old(selectedCardId)
      ensures old(Valid()) ==> Valid()
    {
      if Valid() {
        FilterUnique(tasks, TaskIsNot(id), TaskIdOf);
      }
      tasks := Filter(tasks, TaskIsNot(id));
    }

    /** `createNote(projectId, title, content, cardId)` with the fresh identifier `id`. */
    method CreateNote(projectId: string, title: string, content: Option<string>, cardId: Option<string>,
                      id: string, now: int) returns (n: Note)
      modifies this
      ensures n == NewNote(id, projectId, title, content, cardId, now)
      ensures Doc() == old(Doc()).(notes := old(notes) + [n])
      ensures selectedCardId == old(selectedCardId)
      ensures old(Valid()) && (forall i :: 0 <= i < |old(notes)| ==> old(notes)[i].id != id) ==> Valid()
    {
      n := NewNote(id, projectId, title, content, cardId, now);
      if Valid() && (forall i :: 0 <= i < |notes| ==> notes[i].id != id) {
        assert forall i :: 0 <= i < |notes| ==> NoteIdOf(notes[i]) != NoteIdOf(n);
        AppendFresh(notes, n, NoteIdOf);
      }
      notes := notes + [n];
    }

    method UpdateNote(id: string, u: NotePatch, now: int)
      modifies this
      ensures Doc() == old(Doc()).(notes := UpdateNotes(old(notes), id, u, now))
      ensures selectedCardId == old(selectedCardId)
      ensures old(Valid()) ==> Valid()
    {
      if Valid() {
        MapIfUnique(notes, NoteIs(id), MergeNoteWith(u, now), NoteIdOf);
      }
      notes := UpdateNotes(notes, id, u, now);
    }

    method DeleteNote(id: string)
      modifies this
      ensures Doc() == old(Doc()).(notes := Filter(old(notes), NoteIsNot(id)))
      ensures selectedCardId == old(selectedCardId)
      ensures old(Valid()) ==> Valid()
    {
      if Valid() {
        FilterUnique(notes, NoteIsNot(id), NoteIdOf);
      }
      notes := Filter(notes, NoteIsNot(id));
    }
  }
}
