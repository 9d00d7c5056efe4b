/** src/hooks/useApiStorage.ts: the document held by the provider, its
    per-key updates and the debounced saving. Time, the 300 ms timer and the
    `loadData`/`saveData` promises are events: each method is one callback
    running to completion. React state setters called after unmount do
    nothing; the refs still change. */
module ApiStorage {
  import opened Wrappers
  import opened Seqs
  import opened Domain

  /** The debounce delay of `debouncedSave`, in milliseconds. */
  const DebounceMs := 300
  const SaveFailedMessage := "Failed to save data"
  const LoadFailedMessage := "Failed to load data"

  /** `updateData(key, updater)`: the key and the updater applied to its previous
      value. A plain value is the updater that ignores its argument. */
  datatype KeyUpdate =
    | ProjectsKey(fp: seq<Project> -> seq<Project>)
    | ColumnsKey(fc: seq<Column> -> seq<Column>)
    | CardsKey(fk: seq<Card> -> seq<Card>)
    | TasksKey(ft: seq<Task> -> seq<Task>)
    | NotesKey(fn: seq<Note> -> seq<Note>)
    | CurrentProjectKey(fi: Option<string> -> Option<string>)

  /** `{ ...prev, [key]: updater(prev[key]) }`: the named field is replaced and
      every other field is kept. */
  function UpdateField(d: AppData, u: KeyUpdate): (r: AppData)
    ensures r.projects == if u.ProjectsKey? then u.fp(d.projects) else d.projects
    ensures r.columns == if u.ColumnsKey? then u.fc(d.columns) else d.columns
    ensures r.cards == if u.CardsKey? then u.fk(d.cards) else d.cards
    ensures r.tasks == if u.TasksKey? then u.ft(d.tasks) else d.tasks
    ensures r.notes == if u.NotesKey? then u.fn(d.notes) else d.notes
    ensures r.currentProjectId == if u.CurrentProjectKey? then u.fi(d.currentProjectId) else d.currentProjectId
  {
    match u
    case ProjectsKey(f) => d.(projects := f(d.projects))
    case ColumnsKey(f) => d.(columns := f(d.columns))
    case CardsKey(f) => d.(cards := f(d.cards))
    case TasksKey(f) => d.(tasks := f(d.tasks))
    case NotesKey(f) => d.(notes := f(d.notes))
    case CurrentProjectKey(f) => d.(currentProjectId := f(d.currentProjectId))
  }

  /** Which of the six keys an update names. */
  function KeyIndex(u: KeyUpdate): (r: nat)
    ensures r < 6
  {
    match u
    case ProjectsKey(_) => 0
    case ColumnsKey(_) => 1
    case CardsKey(_) => 2
    case TasksKey(_) => 3
    case NotesKey(_) => 4
    case CurrentProjectKey(_) => 5
  }

  /** Updates of two different keys do not interfere: either order gives the same document. */
  lemma UpdatesOfDifferentKeysCommute(d: AppData, u: KeyUpdate, v: KeyUpdate)
    requires KeyIndex(u) != KeyIndex(v)
    ensures UpdateField(UpdateField(d, u), v) == UpdateField(UpdateField(d, v), u)
  {
  }

  /** The provider's storage state. */
  class Storage {
    var data: AppData
    var isHydrated: bool
    var error: Option<string>
    var isSaving: bool
    /** `pendingDataRef.current` */
    var pending: Option<AppData>
    /** `saveTimeoutRef.current` is set and has neither fired nor been cleared. */
    var timerArmed: bool
    /** The component is mounted; the load effect's `mounted` flag follows it. */
    var mounted: bool
    /** `loadData()` has been called and has not settled. */
    var loading: bool
    /** The documents whose `saveData` call from the timer has not settled. */
    ghost var inFlight: seq<AppData>
    /** Every document handed to `saveData`, in call order. */
    ghost var saves: seq<AppData>
    /** The document the latest `updateData` produced. */
    ghost var lastUpdate: Option<AppData>

    ghost predicate Valid()
      reads this
    {
      (pending.Some? ==> pending == lastUpdate)
      && (mounted && isSaving ==> inFlight != [])
      && (forall i :: 0 <= i < |inFlight| ==> inFlight[i] in saves)
      && (!mounted ==> !timerArmed)
    }

    /** What the debounce promises: the latest update is still pending, or it
        is the last document handed to `saveData`. */
    ghost predicate Durable()
      reads this
    {
      lastUpdate.Some? && pending.None? ==> saves != [] && saves[|saves| - 1] == lastUpdate.value
    }

    /** Mounting: the default document, not hydrated, no error, and the load started. */
    constructor()
      ensures data == DefaultData && !isHydrated && error == None && !isSaving
      ensures pending == None && !timerArmed && mounted && loading
      ensures inFlight == [] && saves == [] && lastUpdate == None
      ensures Valid() && Durable()
    {
      data := DefaultData;
      isHydrated := false;
      error := None;
      isSaving := false;
      pending := None;
      timerArmed := false;
      mounted := true;
      loading := true;
      inFlight := [];
      saves := [];
      lastUpdate := None;
    }

    /** The load settles: `Some(d)` is `loadData` resolving with `d`, `None` is
        it rejecting (which the `loadData` of `Api` never does). */
    method LoadSettled(loaded: Option<AppData>)
      requires loading
      modifies this
      ensures !loading
      ensures old(mounted) && loaded.Some? ==> data == loaded.value && isHydrated && error == None
      ensures old(mounted) && loaded.None? ==>
                data == old(data) && isHydrated && error == Some(LoadFailedMessage)
      ensures !old(mounted) ==> data == old(data) && isHydrated == old(isHydrated) && error == old(error)
      ensures isSaving == old(isSaving) && pending == old(pending) && timerArmed == old(timerArmed)
      ensures mounted == old(mounted) && inFlight == old(inFlight) && saves == old(saves)
      ensures lastUpdate == old(lastUpdate)
      ensures old(Valid()) ==> Valid()
      ensures old(Durable()) ==> Durable()
    {
      loading := false;
      if mounted {
        if loaded.Some? {
          data := loaded.value;
          isHydrated := true;
          error := None;
        } else {
          error := Some(LoadFailedMessage);
          isHydrated := true;
        }
      }
    }

    /** `updateData(key, updater)` and the `debouncedSave` it calls: the new
        document replaces the pending one and the timer restarts. */
    method Update(u: KeyUpdate)
      requires mounted
      modifies this
      ensures data == UpdateField(old(data), u)
      ensures pending == Some(data) && timerArmed && lastUpdate == Some(data)
      ensures isHydrated == old(isHydrated) && error == old(error) && isSaving == old(isSaving)
      ensures mounted == old(mounted) && loading == old(loading)
      ensures inFlight == old(inFlight) && saves == old(saves)
      ensures old(Valid()) ==> Valid()
      ensures Durable()
    {
      var newData := UpdateField(data, u);
      pending := Some(newData);
      timerArmed := true;
      data := newData;
      lastUpdate := Some(newData);
    }

    /** The timer fires, as written: the pending document is handed to
        `saveData` and stays pending until the save settles. */
    method TimerFires()
      requires timerArmed
      modifies this
      ensures !timerArmed && pending == old(pending)
      ensures old(pending).Some? ==>
                saves == old(saves) + [old(pending).value] && inFlight == old(inFlight) + [old(pending).value]
      ensures old(pending).Some? && old(mounted) ==> isSaving
      ensures old(pending).None? || !old(mounted) ==> isSaving == old(isSaving)
      ensures old(pending).None? ==> saves == old(saves) && inFlight == old(inFlight)
      ensures data == old(data) && isHydrated == old(isHydrated) && error == old(error)
      ensures mounted == old(mounted) && loading == old(loading) && lastUpdate == old(lastUpdate)
      ensures old(Valid()) ==> Valid()
      ensures old(Durable()) ==> Durable()
    {
      timerArmed := false;
      if pending.Some? {
        if mounted {
          isSaving := true;
        }
        saves := saves + [pending.value];
        inFlight := inFlight + [pending.value];
      }
    }

    /** The `i`-th outstanding save settles, as written: the flags follow the
        result and the pending document is cleared, whatever it now is. */
    method SaveSettled(i: nat, success: bool)
      requires i < |inFlight|
      modifies this
      ensures inFlight == RemoveAt(old(inFlight), i)
      ensures old(mounted) ==> !isSaving && error == (if success then None else Some(SaveFailedMessage))
      ensures !old(mounted) ==> isSaving == old(isSaving) && error == old(error)
      ensures pending == None
      ensures data == old(data) && isHydrated == old(isHydrated) && timerArmed == old(timerArmed)
      ensures mounted == old(mounted) && loading == old(loading)
      ensures saves == old(saves) && lastUpdate == old(lastUpdate)
      ensures old(Valid()) ==> Valid()
    {
      inFlight := RemoveAt(inFlight, i);
      if mounted {
        isSaving := false;
        error := if success then None else Some(SaveFailedMessage);
      }
      pending := None;
    }

    /** The timer fires, corrected: the pending document is taken and cleared
        before `saveData` is awaited, so a later update stays pending. */
    method TimerFiresFixed()
      requires timerArmed
      modifies this
      ensures !timerArmed && pending == None
      ensures old(pending).Some? ==>
                saves == old(saves) + [old(pending).value] && inFlight == old(inFlight) + [old(pending).value]
      ensures old(pending).Some? && old(mounted) ==> isSaving
      ensures old(pending).None? || !old(mounted) ==> isSaving == old(isSaving)
      ensures old(pending).None? ==> saves == old(saves) && inFlight == old(inFlight)
      ensures data == old(data) && isHydrated == old(isHydrated) && error == old(error)
      ensures mounted == old(mounted) && loading == old(loading) && lastUpdate == old(lastUpdate)
      ensures old(Valid()) ==> Valid()
      ensures old(Valid()) && old(Durable()) ==> Durable()
    {
      timerArmed := false;
      if pending.Some? {
        if mounted {
          isSaving := true;
        }
        saves := saves + [pending.value];
        inFlight := inFlight + [pending.value];
        pending := None;
      }
    }

    /** A save settles, corrected: the flags follow the result and the
        pending document is left alone. */
    method SaveSettledFixed(i: nat, success: bool)
      requires i < |inFlight|
      modifies this
      ensures inFlight == RemoveAt(old(inFlight), i)
      ensures old(mounted) ==> !isSaving && error == (if success then None else Some(SaveFailedMessage))
      ensures !old(mounted) ==> isSaving == old(isSaving) && error == old(error)
      ensures pending == old(pending)
      ensures data == old(data) && isHydrated == old(isHydrated) && timerArmed == old(timerArmed)
      ensures mounted == old(mounted) && loading == old(loading)
      ensures saves == old(saves) && lastUpdate == old(lastUpdate)
      ensures old(Valid()) ==> Valid()
      ensures old(Durable()) ==> Durable()
    {
      inFlight := RemoveAt(inFlight, i);
      if mounted {
        isSaving := false;
        error := if success then None else Some(SaveFailedMessage);
      }
    }

    /** Unmount: the timer is cleared and a pending document is handed to
        `saveData` at once, without waiting for the result. */
    method Unmount()
      requires mounted
      modifies this
      ensures !mounted && !timerArmed
      ensures old(pending).Some? ==> saves == old(saves) + [old(pending).value]
      ensures old(pending).None? ==> saves == old(saves)
      ensures pending == old(pending) && inFlight == old(inFlight) && data == old(data)
      ensures isHydrated == old(isHydrated) && error == old(error) && isSaving == old(isSaving)
      ensures loading == old(loading) && lastUpdate == old(lastUpdate)
      ensures old(Valid()) ==> Valid()
      ensures old(Durable()) ==> Durable()
      ensures old(Valid()) && old(Durable()) && lastUpdate.Some? ==>
                saves != [] && saves[|saves| - 1] == lastUpdate.value
    {
      timerArmed := false;
      mounted := false;
      if pending.Some? {
        saves := saves + [pending.value];
      }
    }
  }

  function SetCurrent(id: string): Option<string> -> Option<string> {
    (c: Option<string>) => Some(id)
  }

  /** An update made while a save is outstanding is never saved: the save's
      completion clears it, and the next timer finds nothing pending. The
      storage is then idle with its latest document unsaved. */
  method LostUpdateTrace() returns (s: Storage)
    ensures s.Valid() && s.mounted && !s.timerArmed && s.inFlight == []
    ensures s.lastUpdate.Some? && s.saves == [DefaultData.(currentProjectId := Some("a"))]
    ensures s.lastUpdate.value.currentProjectId == Some("b")
    ensures !s.Durable()
  {
    ghost var da := DefaultData.(currentProjectId := Some("a"));
    ghost var db := DefaultData.(currentProjectId := Some("b"));
    s := new Storage();
    s.Update(CurrentProjectKey(SetCurrent("a")));
    assert s.pending == Some(da);
    s.TimerFires();
    assert s.saves == [da] && s.inFlight == [da];
    s.Update(CurrentProjectKey(SetCurrent("b")));
    assert s.data == db && s.pending == Some(db);
    s.SaveSettled(0, true);
    assert s.inFlight == [];
    s.TimerFires();
  }

  /** The same events with the corrected callbacks save the second update. */
  method FixedTrace() returns (s: Storage)
    ensures s.Valid() && s.mounted && !s.timerArmed && s.inFlight == [DefaultData.(currentProjectId := Some("b"))]
    ensures s.saves == [DefaultData.(currentProjectId := Some("a")), DefaultData.(currentProjectId := Some("b"))]
    ensures s.Durable()
  {
    ghost var da := DefaultData.(currentProjectId := Some("a"));
    ghost var db := DefaultData.(currentProjectId := Some("b"));
    s := new Storage();
    s.Update(CurrentProjectKey(SetCurrent("a")));
    assert s.pending == Some(da);
    s.TimerFiresFixed();
    assert s.saves == [da] && s.inFlight == [da];
    s.Update(CurrentProjectKey(SetCurrent("b")));
    assert s.data == db && s.pending == Some(db);
    s.SaveSettledFixed(0, true);
    assert s.inFlight == [] && s.pending == Some(db) && s.lastUpdate == Some(db);
    s.TimerFiresFixed();
    assert s.saves == [da, db] && s.pending == None;
  }
}
