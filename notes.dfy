/** src/hooks/useNotes.ts: the filtered note list and `addNote`. */
module Notes {
  import opened Wrappers
  import opened Seqs
  import opened Sorting
  import opened Text
  import opened Domain
  import opened AppContext
  import opened Tasks

  function NoteInCurrent(current: Option<string>): Note -> bool {
    (n: Note) => current == Some(n.projectId)
  }

  /** The search test on a lower-cased query: the lower-cased title or content contains it. */
  predicate NoteMatches(n: Note, query: string) {
    Contains(Lower(n.title), query) || Contains(Lower(n.content), query)
  }

  function NoteCardFilter(f: CardFilter): Note -> bool { (n: Note) => CardMatches(f, n.cardId) }
  function NoteSearchFilter(query: string): Note -> bool { (n: Note) => NoteMatches(n, query) }

  /** The stages of `projectNotes` before the sort. */
  function FilteredNotes(d: AppData, search: Option<string>, cardId: CardFilter): seq<Note> {
    var s0 := Filter(d.notes, NoteInCurrent(d.currentProjectId));
    var s1 := if cardId.AnyCard? then s0 else Filter(s0, NoteCardFilter(cardId));
    if Truthy(search) then Filter(s1, NoteSearchFilter(Lower(search.value))) else s1
  }

  /** Every condition of the filter chain for one note, as a single condition. */
  predicate NoteSelected(current: Option<string>, search: Option<string>, cardId: CardFilter, n: Note) {
    current == Some(n.projectId)
    && CardMatches(cardId, n.cardId)
    && (Truthy(search) ==> NoteMatches(n, Lower(search.value)))
  }

  lemma FilteredNotesMembers(d: AppData, search: Option<string>, cardId: CardFilter, n: Note)
    ensures n in FilteredNotes(d, search, cardId) <==> n in d.notes && NoteSelected(d.currentProjectId, search, cardId, n)
  {
    var s0 := Filter(d.notes, NoteInCurrent(d.currentProjectId));
    var s1 := if cardId.AnyCard? then s0 else Filter(s0, NoteCardFilter(cardId));
    FilterMembers(d.notes, NoteInCurrent(d.currentProjectId), n);
    FilterMembers(s0, NoteCardFilter(cardId), n);
    if Truthy(search) {
      FilterMembers(s1, NoteSearchFilter(Lower(search.value)), n);
    }
  }

  /** The comparator `(a, b) => b.updatedAt - a.updatedAt` as a key. */
  function UpdatedKey(n: Note): Key { (-n.updatedAt, 0) }

  /** `projectNotes`: the selected notes, most recently updated first. */
  function ProjectNotesView(d: AppData, search: Option<string>, cardId: CardFilter): (r: seq<Note>)
    ensures multiset(r) == multiset(FilteredNotes(d, search, cardId))
    ensures forall i, j :: 0 <= i < j < |r| ==> r[i].updatedAt >= r[j].updatedAt
  {
    ByUpdated(FilteredNotes(d, search, cardId))
  }

  /** The comparator of the note list: most recently updated first. */
  function ByUpdated(s: seq<Note>): (r: seq<Note>)
    ensures multiset(r) == multiset(s)
    ensures forall i, j :: 0 <= i < j < |r| ==> r[i].updatedAt >= r[j].updatedAt
  {
    var r := SortBy(s, UpdatedKey);
    assert forall i, j :: 0 <= i < j < |r| ==> KeyLe(UpdatedKey(r[i]), UpdatedKey(r[j]));
    r
  }

  /** The view holds exactly the current project's notes that pass both filters. */
  lemma ProjectNotesViewMembers(d: AppData, search: Option<string>, cardId: CardFilter, n: Note)
    ensures n in ProjectNotesView(d, search, cardId) <==> n in d.notes && NoteSelected(d.currentProjectId, search, cardId, n)
  {
    var r := ProjectNotesView(d, search, cardId);
    assert n in r <==> n in multiset(r);
    assert n in FilteredNotes(d, search, cardId) <==> n in multiset(FilteredNotes(d, search, cardId));
    FilteredNotesMembers(d, search, cardId, n);
  }

  /** Filtering never repeats a note: the view is a sub-multiset of the document's notes. */
  lemma ProjectNotesViewSubset(d: AppData, search: Option<string>, cardId: CardFilter)
    ensures multiset(ProjectNotesView(d, search, cardId)) <= multiset(d.notes)
  {
    var s0 := Filter(d.notes, NoteInCurrent(d.currentProjectId));
    var s1 := if cardId.AnyCard? then s0 else Filter(s0, NoteCardFilter(cardId));
    assert multiset(s1) <= multiset(s0);
  }

  /** `addNote(title, content, linkedCardId)`: nothing without a current
      project; otherwise `createNote` for it. */
  method AddNote(store: AppStore, title: string, content: Option<string>, linkedCardId: Option<string>,
                 id: string, now: int) returns (r: Option<Note>)
    modifies store
    ensures !Truthy(old(store.currentProjectId)) ==> r == None && store.Doc() == old(store.Doc())
    ensures Truthy(old(store.currentProjectId)) ==>
      r == Some(NewNote(id, old(store.currentProjectId).value, title, content, linkedCardId, now))
      && store.Doc() == old(store.Doc()).(notes := old(store.notes) + [r.value])
    ensures store.selectedCardId == old(store.selectedCardId)
  {
    if Truthy(store.currentProjectId) {
      var n := store.CreateNote(store.currentProjectId.value, title, content, linkedCardId, id, now);
      r := Some(n);
    } else {
      r := None;
    }
  }
}
