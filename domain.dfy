/** The records of the project-management document (src/types/index.ts) and
    the persisted document that holds them (src/lib/api.ts). Identifiers are
    strings and timestamps are whole milliseconds since the epoch. An optional
    property (`x?: T`, or `T | null`) is an `Option<T>`; `null` and `undefined`
    are both `None`. */
module Domain {
  import opened Wrappers

  datatype Priority = P0 | P1 | P2 | P3 | P4
  datatype Status = Todo | InProgress | Done
  datatype ArchiveReason = Archived | Deleted

  /** The rank the task list sorts by: p0 first. */
  function PriorityRank(p: Priority): (r: nat)
    ensures r < 5
    ensures p == P0 <==> r == 0
  {
    match p
    case P0 => 0
    case P1 => 1
    case P2 => 2
    case P3 => 3
    case P4 => 4
  }

  /** The rank orders the priorities p0 before p1 before p2 before p3 before p4. */
  lemma PriorityRankOrdered()
    ensures PriorityRank(P0) < PriorityRank(P1) < PriorityRank(P2) < PriorityRank(P3) < PriorityRank(P4)
  {
  }

  /** Distinct priorities have distinct ranks. */
  lemma PriorityRankInjective(p: Priority, q: Priority)
    requires PriorityRank(p) == PriorityRank(q)
    ensures p == q
  {
  }

  datatype Project = Project(
    id: string,
    name: string,
    description: Option<string>,
    createdAt: int,
    updatedAt: int)

  datatype Column = Column(
    id: string,
    projectId: string,
    title: string,
    order: int,
    createdAt: int)

  /** A kanban card. An absent `archived` flag reads as `false`. The
      `linkedTaskIds`/`linkedNoteIds` properties of the type are never read
      or written by the store and are not modelled. */
  datatype Card = Card(
    id: string,
    title: string,
    description: Option<string>,
    priority: Option<Priority>,
    columnId: string,
    order: int,
    createdAt: int,
    updatedAt: int,
    columnChangedAt: int,
    dueDate: Option<int>,
    archived: bool,
    archivedAt: Option<int>,
    archiveReason: Option<ArchiveReason>)

  datatype Link = Link(url: string, title: Option<string>)

  datatype Task = Task(
    id: string,
    projectId: string,
    title: string,
    description: Option<string>,
    status: Status,
    priority: Priority,
    dueDate: Option<int>,
    cardId: Option<string>,
    links: Option<seq<Link>>,
    comments: Option<string>,
    createdAt: int,
    updatedAt: int)

  datatype Note = Note(
    id: string,
    projectId: string,
    title: string,
    content: string,
    cardId: Option<string>,
    links: Option<seq<Link>>,
    createdAt: int,
    updatedAt: int)

  /** The whole persisted document: five collections and the current project. */
  datatype AppData = AppData(
    projects: seq<Project>,
    columns: seq<Column>,
    cards: seq<Card>,
    tasks: seq<Task>,
    notes: seq<Note>,
    currentProjectId: Option<string>)

  /** The empty document a fresh installation starts with. */
  const DefaultData := AppData([], [], [], [], [], None)

  // Identifier accessors, so that filters and uniqueness can name them.

  function ProjectIdOf(p: Project): string { p.id }
  function ColumnIdOf(c: Column): string { c.id }
  function CardIdOf(c: Card): string { c.id }
  function TaskIdOf(t: Task): string { t.id }
  function NoteIdOf(n: Note): string { n.id }
  function CardOrderOf(c: Card): int { c.order }
  function ColumnOrderOf(c: Column): int { c.order }

  // The `Partial<...>` objects the update operations accept.

  datatype ProjectPatch = ProjectPatch(name: Patch<string>, description: Patch<Option<string>>)

  datatype CardPatch = CardPatch(
    title: Patch<string>,
    description: Patch<Option<string>>,
    priority: Patch<Option<Priority>>,
    dueDate: Patch<Option<int>>,
    columnId: Patch<string>,
    order: Patch<int>)

  datatype TaskPatch = TaskPatch(
    title: Patch<string>,
    description: Patch<Option<string>>,
    status: Patch<Status>,
    priority: Patch<Priority>,
    dueDate: Patch<Option<int>>,
    cardId: Patch<Option<string>>,
    links: Patch<Option<seq<Link>>>,
    comments: Patch<Option<string>>)

  datatype NotePatch = NotePatch(
    title: Patch<string>,
    content: Patch<string>,
    cardId: Patch<Option<string>>,
    links: Patch<Option<seq<Link>>>)

  /** `{ ...p, ...updates, updatedAt: now }` */
  function MergeProject(p: Project, u: ProjectPatch, now: int): (r: Project)
    ensures r.id == p.id && r.createdAt == p.createdAt && r.updatedAt == now
    ensures r.name == (if u.name.Put? then u.name.value else p.name)
    ensures r.description == (if u.description.Put? then u.description.value else p.description)
  {
    p.(name := u.name.Apply(p.name), description := u.description.Apply(p.description), updatedAt := now)
  }

  /** `{ ...c, ...updates, updatedAt: now }`; archive state and `columnChangedAt` are kept. */
  function MergeCard(c: Card, u: CardPatch, now: int): (r: Card)
    ensures r.id == c.id && r.createdAt == c.createdAt && r.updatedAt == now
    ensures r.columnChangedAt == c.columnChangedAt
    ensures r.archived == c.archived && r.archivedAt == c.archivedAt && r.archiveReason == c.archiveReason
    ensures r.title == (if u.title.Put? then u.title.value else c.title)
    ensures r.columnId == (if u.columnId.Put? then u.columnId.value else c.columnId)
    ensures r.order == (if u.order.Put? then u.order.value else c.order)
    ensures r.description == (if u.description.Put? then u.description.value else c.description)
    ensures r.priority == (if u.priority.Put? then u.priority.value else c.priority)
    ensures r.dueDate == (if u.dueDate.Put? then u.dueDate.value else c.dueDate)
  {
    c.(title := u.title.Apply(c.title),
       description := u.description.Apply(c.description),
       priority := u.priority.Apply(c.priority),
       dueDate := u.dueDate.Apply(c.dueDate),
       columnId := u.columnId.Apply(c.columnId),
       order := u.order.Apply(c.order),
       updatedAt := now)
  }

  /** `{ ...t, ...updates, updatedAt: now }`; `id`, `projectId` and `createdAt` cannot be patched. */
  function MergeTask(t: Task, u: TaskPatch, now: int): (r: Task)
    ensures r.id == t.id && r.projectId == t.projectId && r.createdAt == t.createdAt && r.updatedAt == now
    ensures r.title == (if u.title.Put? then u.title.value else t.title)
    ensures r.description == (if u.description.Put? then u.description.value else t.description)
    ensures r.status == (if u.status.Put? then u.status.value else t.status)
    ensures r.priority == (if u.priority.Put? then u.priority.value else t.priority)
    ensures r.dueDate == (if u.dueDate.Put? then u.dueDate.value else t.dueDate)
    ensures r.cardId == (if u.cardId.Put? then u.cardId.value else t.cardId)
    ensures r.links == (if u.links.Put? then u.links.value else t.links)
    ensures r.comments == (if u.comments.Put? then u.comments.value else t.comments)
  {
    t.(title := u.title.Apply(t.title),
       description := u.description.Apply(t.description),
       status := u.status.Apply(t.status),
       priority := u.priority.Apply(t.priority),
       dueDate := u.dueDate.Apply(t.dueDate),
       cardId := u.cardId.Apply(t.cardId),
       links := u.links.Apply(t.links),
       comments := u.comments.Apply(t.comments),
       updatedAt := now)
  }

  /** `{ ...n, ...updates, updatedAt: now }` */
  function MergeNote(n: Note, u: NotePatch, now: int): (r: Note)
    ensures r.id == n.id && r.projectId == n.projectId && r.createdAt == n.createdAt && r.updatedAt == now
    ensures r.title == (if u.title.Put? then u.title.value else n.title)
    ensures r.content == (if u.content.Put? then u.content.value else n.content)
    ensures r.cardId == (if u.cardId.Put? then u.cardId.value else n.cardId)
    ensures r.links == (if u.links.Put? then u.links.value else n.links)
  {
    n.(title := u.title.Apply(n.title),
       content := u.content.Apply(n.content),
       cardId := u.cardId.Apply(n.cardId),
       links := u.links.Apply(n.links),
       updatedAt := now)
  }
}
