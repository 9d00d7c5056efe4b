# totaltpm: the project-management document and its views

This project models the core of totaltpm, a local project-management tool.
The core is one in-memory document. It holds five collections (projects,
kanban columns, cards, tasks, notes) and the current project. The model covers:

- the store that creates, updates, deletes and moves records in that
  document (`src/context/AppContext.tsx`);
- the views the hooks derive from it: project scoping, the card-link,
  status, priority and search filters, the sort orders, the task counts and
  the per-card progress (`src/hooks/*.ts`, `src/lib/utils.ts`);
- the persistence boundary: the per-key merge and debounced save of
  `useApiStorage`, the defaulting of `loadData`, and the shape coercion of
  the data route;
- the small pure helpers inside UI files: the deliverable status summary
  and text, link normalisation, days in column, note previews and the
  note-selection fallback, and the URL checks and quoting of the open-url
  route.

Dafny modules follow the source files:

| module | source |
|---|---|
| `Domain` | records of `src/types/index.ts`, the `AppData` document, and the `{...x, ...updates}` merges |
| `AppContext` | the store, as class `AppStore`, with the per-collection transforms as functions |
| `Kanban`, `Tasks`, `Notes`, `Projects`, `Utils` | the hooks and `utils.ts` |
| `ApiStorage` | class `Storage`, the state cells and refs of `useApiStorage` |
| `Api`, `DataRoute`, `JsonValues` | `loadData`/`saveData` and the data route, over JSON values |
| `DeliverableStatus`, `LinksEditor`, `KanbanCard`, `NotesPanel`, `OpenUrl` | the UI helpers |
| `Wrappers`, `Seqs`, `Sorting`, `Text` | shared helpers |

Shared helpers:
- `Option`/`Patch`: an absent or present property.
- `Filter` and `Map`, each with a membership lemma.
- A stable sort: insertion sort on integer pair keys, so it agrees with the
  stable `Array.prototype.sort`.
- ASCII lower-casing, JavaScript's whitespace set, `trim`, substring search
  and decimal rendering.

JavaScript semantics are written out:
- Truthiness: `if (x)` on an optional string holds for a present, non-empty
  string.
- A due date or `columnChangedAt` of 0 is falsy.
- `??` applies to `null` and `undefined` only.
- `Math.floor` of a quotient by a positive constant is Dafny's `/`.
- `Math.round((c / t) * 100)` is integer rounding, halves up:
  `(200c + t) / (2t)`.

`Date.now()` and `generateId()` are parameters (`now`, `id`). `formatDate`
is a parameter too. A React state update plus the effects it triggers is one
method call.

## Model

| member | source | states |
|---|---|---|
| Domain.PriorityRank | src/hooks/useTasks.ts:56-57 | the rank is below 5 and is 0 exactly for p0 |
| Domain.PriorityRankOrdered | src/hooks/useTasks.ts:56-57 | the ranks put p0 before p1 before p2 before p3 before p4 |
| Domain.PriorityRankInjective | src/hooks/useTasks.ts:56-57 | equal ranks mean equal priorities |
| Domain.MergeProject | src/context/AppContext.tsx:157-166 | `{...p, ...updates, updatedAt}`: a patched field takes the patch, an unpatched one keeps its value, id and createdAt are kept, updatedAt is now |
| Domain.MergeCard | src/context/AppContext.tsx:267-276 | as above for the six patchable card fields; archive state and columnChangedAt are kept |
| Domain.MergeTask | src/context/AppContext.tsx:350-359 | as above for the task fields; id, projectId and createdAt are kept |
| Domain.MergeNote | src/context/AppContext.tsx:388-397 | as above for title, content, cardId and links |
| AppContext.DefaultColumns | src/context/AppContext.tsx:141-148 | three columns: the given ids, the project's id, the titles "To Do", "In Progress", "Done", orders 0, 1, 2 and createdAt now |
| AppContext.WithProject | src/context/AppContext.tsx:128-155 | the project `{id, name, description, now, now}` is appended, the three default columns follow the old columns, other collections are unchanged, and the new project becomes current |
| AppContext.UpdateProjects | src/context/AppContext.tsx:157-166 | each project with the id is merged, every other one is unchanged, and the length is kept |
| AppContext.WithoutProjectCard | src/context/AppContext.tsx:172-177 | a card survives deleteProject exactly when no column of that project names it |
| AppContext.DeleteProjectCascade | src/context/AppContext.tsx:168-179 | exactly the project, its columns, the cards of those columns, and its tasks and notes are removed |
| AppContext.DeleteProjectCurrent | src/context/AppContext.tsx:181-184 | another current project is kept; the deleted current one is replaced by the first remaining project in store order, or none; the result never names the deleted id |
| AppContext.DeleteProjectKeepsProject | src/context/AppContext.tsx:170 | every other project survives |
| AppContext.DeleteProjectKeepsColumn | src/context/AppContext.tsx:171 | every column not of that project survives |
| AppContext.DeleteProjectKeepsLinked | src/context/AppContext.tsx:168-179 | the cascade keeps every column, card, task and note pointing at an existing parent |
| AppContext.NextOrder | src/context/AppContext.tsx:193-195 | `max + 1`: 0 for no orders, above every order, and one more than some order |
| AppContext.NextOrderAbove | src/context/AppContext.tsx:192-201 | the next order of a group tops the order of every member of the group |
| AppContext.NextOrderAttained | src/context/AppContext.tsx:192-201 | in a non-empty group the next order is one more than the order of some member: the maximum plus one |
| AppContext.NewColumn | src/context/AppContext.tsx:190-209 | the new column's order is one more than the largest order of that project's columns (above every one of them and one more than some), and 0 when it has none; id, title, projectId and createdAt are as given |
| AppContext.UpdateColumns | src/context/AppContext.tsx:211-218 | only the title of the matching column changes |
| AppContext.WithoutColumn | src/context/AppContext.tsx:220-226 | exactly the column and the cards naming it are removed; projects, tasks, notes and the current project are unchanged |
| AppContext.KeptColumnFound | src/context/AppContext.tsx:222 | every other column survives deleteColumn |
| AppContext.DeleteColumnCardsLinked | src/context/AppContext.tsx:220-226 | every card left by deleteColumn names a column that still exists |
| AppContext.DeleteColumnKeepsLinked | src/context/AppContext.tsx:220-226 | the parent links stay intact after deleteColumn |
| AppContext.DeleteColumnLeavesLinksDangling | src/context/AppContext.tsx:220-226 | a concrete document where deleteColumn leaves a task linked to a card that no longer exists (tasks are not unlinked) |
| AppContext.ReorderedColumns | src/context/AppContext.tsx:228-238 | the given columns verbatim at the end, after exactly the old columns whose id is not among them, kept in their prior relative order |
| AppContext.ReorderColumnsPermutes | src/context/AppContext.tsx:228-238 | nothing appears that was in neither list, and the result is a permutation when the given columns are the listed old ones |
| AppContext.NewCard | src/context/AppContext.tsx:240-265 | priority defaults to p2, createdAt = updatedAt = columnChangedAt = now, not archived; the order is one more than the largest order in that column (above every one and one more than some) and 0 for an empty column |
| AppContext.UpdateCards | src/context/AppContext.tsx:267-276 | each card with the id is merged and every other card is unchanged |
| AppContext.WithoutCard | src/context/AppContext.tsx:278-283 | exactly the card is removed; each task and note linked to it has its cardId cleared and nothing else changes |
| AppContext.KeptCardFound | src/context/AppContext.tsx:280 | every other card survives deleteCard |
| AppContext.DeleteCardWeakLinked | src/context/AppContext.tsx:278-283 | if every task and note card link led to a card, it still does |
| AppContext.DeleteCardKeepsLinks | src/context/AppContext.tsx:278-283 | no task or note still names the deleted card, and both link invariants are preserved |
| AppContext.DeleteCardLinked | src/context/AppContext.tsx:278-283 | the parent links stay intact after deleteCard |
| AppContext.MoveCardAbsent | src/context/AppContext.tsx:293-294 | moving a card that is not stored returns the cards unchanged |
| AppContext.TargetListInColumn | src/context/AppContext.tsx:300-305 | every card of the spliced target list is in the target column |
| AppContext.MoveCardFound | src/context/AppContext.tsx:290-325 | for a stored card, the result is the cards of other columns followed by the renumbered target list |
| AppContext.RenumberInColumn | src/context/AppContext.tsx:308-314 | after renumbering, the target list's orders are 0..n-1, all in the target column |
| AppContext.MoveCardTargetColumn | src/context/AppContext.tsx:300-321 | the target column of the result is exactly the renumbered target list |
| AppContext.RenumberIds | src/context/AppContext.tsx:308-314 | renumbering keeps the identifiers in their order |
| AppContext.MoveCardTarget | src/context/AppContext.tsx:290-325 | the target column holds the other cards sorted by order with the moved card spliced in at the splice index, one more than before, orders 0..n-1; the moved card has updatedAt now and a new columnChangedAt only on a column change |
| AppContext.MoveCardTargetKept | src/context/AppContext.tsx:300-314 | the other cards of the target column keep every field but order, which becomes their new index; those after the splice index move one down |
| AppContext.MoveCardOthers | src/context/AppContext.tsx:316-321 | cards of other columns, the source column included, are kept verbatim and in order; a stored moved card drops out of them |
| AppContext.MoveCardCount | src/context/AppContext.tsx:290-325 | with unique ids, the number of cards is kept |
| AppContext.MoveCardIds | src/context/AppContext.tsx:290-325 | with unique ids, every card id occurs in the result exactly as often as before: no card is lost or duplicated |
| AppContext.MoveCardUnique | src/context/AppContext.tsx:290-325 | with unique ids, card ids stay unique |
| AppContext.NewTask | src/context/AppContext.tsx:328-348 | status defaults to todo and priority to p2; description, dueDate and cardId are copied; links and comments are dropped; createdAt = updatedAt = now |
| AppContext.UpdateTasks | src/context/AppContext.tsx:350-359 | each task with the id is merged and every other task is unchanged |
| AppContext.NewNote | src/context/AppContext.tsx:369-386 | content defaults to "", cardId to none, no links, createdAt = updatedAt = now |
| AppContext.UpdateNotes | src/context/AppContext.tsx:388-397 | each note with the id is merged and every other note is unchanged |
| AppContext.UpdatesIdempotent | src/context/AppContext.tsx:157-166 | every update, applied twice with the same patch and time, equals applying it once |
| AppContext.UpdatesPreserveValid | src/context/AppContext.tsx:157-397 | updates keep identifiers unique in all five collections |
| AppContext.UpdatesNoMatch | src/context/AppContext.tsx:157-397 | an update naming no record changes nothing |
| AppContext.AppStore.constructor | src/context/AppContext.tsx:119-120 | the store holds the loaded document and no selected card |
| AppContext.AppStore.Commit | src/context/AppContext.tsx:122-125 | a new document is stored; the selection is cleared exactly when the current project changed |
| AppContext.AppStore.SetCurrentProjectId | src/context/AppContext.tsx:122-125 | only the current project changes; the selection resets when it differs |
| AppContext.AppStore.SetSelectedCardId | src/context/AppContext.tsx:120 | only the selection changes |
| AppContext.AppStore.CreateProject | src/context/AppContext.tsx:128-155 | the store becomes WithProject of the old document and returns the new project; fresh ids keep ids unique |
| AppContext.AppStore.UpdateProject | src/context/AppContext.tsx:157-166 | only projects change, by UpdateProjects; uniqueness is preserved |
| AppContext.AppStore.DeleteProject | src/context/AppContext.tsx:168-187 | the store becomes WithoutProject; the selection resets when the current project was deleted; uniqueness and parent links are preserved |
| AppContext.AppStore.CreateColumn | src/context/AppContext.tsx:190-209 | NewColumn is appended and returned |
| AppContext.AppStore.UpdateColumn | src/context/AppContext.tsx:211-218 | only columns change, by UpdateColumns |
| AppContext.AppStore.DeleteColumn | src/context/AppContext.tsx:220-226 | the store becomes WithoutColumn; uniqueness and parent links are preserved |
| AppContext.AppStore.ReorderColumns | src/context/AppContext.tsx:228-238 | only columns change, to ReorderedColumns; uniqueness holds when the given columns have unique ids |
| AppContext.AppStore.CreateCard | src/context/AppContext.tsx:240-265 | NewCard is appended and returned |
| AppContext.AppStore.UpdateCard | src/context/AppContext.tsx:267-276 | only cards change, by UpdateCards |
| AppContext.AppStore.DeleteCard | src/context/AppContext.tsx:278-288 | the store becomes WithoutCard; a selection of the deleted card is cleared and any other kept; all three invariants are preserved |
| AppContext.AppStore.MoveCard | src/context/AppContext.tsx:290-325 | only cards change, to MovedCards, computed with the in-place splice; the uniqueness invariant is kept |
| AppContext.AppStore.CreateTask | src/context/AppContext.tsx:328-348 | NewTask is appended and returned |
| AppContext.AppStore.UpdateTask | src/context/AppContext.tsx:350-359 | only tasks change, by UpdateTasks |
| AppContext.AppStore.DeleteTask | src/context/AppContext.tsx:361-366 | exactly the tasks with that id are removed |
| AppContext.AppStore.CreateNote | src/context/AppContext.tsx:369-386 | NewNote is appended and returned |
| AppContext.AppStore.UpdateNote | src/context/AppContext.tsx:388-397 | only notes change, by UpdateNotes |
| AppContext.AppStore.DeleteNote | src/context/AppContext.tsx:399-404 | exactly the notes with that id are removed |
| Kanban.ProjectColumns | src/hooks/useKanban.ts:27-33 | exactly the current project's columns, each as often as stored (a permutation of the filtered columns), ascending by order |
| Kanban.CreateProjectColumns | src/context/AppContext.tsx:141-149 | a new project's columns are exactly its three default columns |
| Kanban.CreateProjectBoard | src/hooks/useKanban.ts:27-33 | right after createProject the board shows the three default columns in order |
| Kanban.ColumnCards | src/hooks/useKanban.ts:35-39 | exactly the non-archived cards of the column, a permutation of the filtered cards, ascending by order |
| Kanban.ProjectColumnIdsMembers | src/hooks/useKanban.ts:43 | an id is among the mapped column ids exactly when a current-project column has it |
| Kanban.ArchivedCards | src/hooks/useKanban.ts:41-49 | exactly the archived cards of current-project columns, a permutation of the filtered cards, most recently archived first, a missing archivedAt counting as 0 |
| Kanban.BoardAndArchiveDisjoint | src/hooks/useKanban.ts:37 | no card is both in a column's board list and in the archive |
| Kanban.Percentage | src/hooks/useKanban.ts:56 | 0 for no tasks, else the nearest integer to 100·completed/total, halves up |
| Kanban.PercentageBounds | src/hooks/useKanban.ts:56 | the percentage is at most 100, 0 for none completed and 100 for all |
| Kanban.CardProgress | src/hooks/useKanban.ts:52-58 | total and completed count the current project's tasks linked to the card; completed ≤ total; percentage rule with 0 for no tasks |
| Kanban.AddColumn | src/hooks/useKanban.ts:60-64 | nothing changes without a current project; otherwise createColumn for it |
| Kanban.ProjectTasks | src/hooks/useKanban.ts:70-73 | exactly the current project's tasks, each as often as stored, in store order |
| Tasks.FilteredTasksMembers | src/hooks/useTasks.ts:24-52 | a task passes the filter stages exactly when it is in the current project and meets the card, status, priority and search conditions |
| Tasks.ByPriority | src/hooks/useTasks.ts:55-58 | a permutation ordered by priority rank, then createdAt descending |
| Tasks.ByNewest | src/hooks/useTasks.ts:59 | a permutation ordered by createdAt descending |
| Tasks.ProjectTasksView | src/hooks/useTasks.ts:23-60 | a permutation of the filtered tasks; priority order when filtering by a non-empty card id, newest first otherwise |
| Tasks.ProjectTasksViewMembers | src/hooks/useTasks.ts:23-60 | the view holds exactly the selected tasks |
| Tasks.StatusCountsSum | src/hooks/useTasks.ts:64-68 | the three status counts add up to the length |
| Tasks.TaskCountsOf | src/hooks/useTasks.ts:62-70 | counted over every current-project task whatever the filters: todo, inProgress and done are the numbers of tasks with that status, and total = todo + inProgress + done |
| Tasks.AddTask | src/hooks/useTasks.ts:81-85 | nothing without a current project; otherwise one todo task of it is appended and returned, without links |
| Notes.FilteredNotesMembers | src/hooks/useNotes.ts:16-36 | a note passes exactly when it is in the current project and meets the card and search conditions |
| Notes.ByUpdated | src/hooks/useNotes.ts:38 | a permutation ordered by updatedAt descending |
| Notes.ProjectNotesView | src/hooks/useNotes.ts:15-39 | a permutation of the filtered notes, updatedAt descending |
| Notes.ProjectNotesViewMembers | src/hooks/useNotes.ts:15-39 | the view holds exactly the selected notes |
| Notes.ProjectNotesViewSubset | src/hooks/useNotes.ts:16-36 | the view is a sub-multiset of the stored notes |
| Notes.AddNote | src/hooks/useNotes.ts:41-45 | nothing without a current project; otherwise NewNote for it is appended and returned |
| Projects.CurrentProject | src/hooks/useProjects.ts:16-19 | the first project whose id is current, and none exactly when no project has it |
| Projects.NoCurrentProject | src/hooks/useProjects.ts:16-19 | no current id gives no current project |
| Projects.CurrentProjectUnique | src/hooks/useProjects.ts:16-19 | with unique ids, it is the project with that id |
| Projects.SortedProjects | src/hooks/useProjects.ts:21-24 | a permutation of the projects, updatedAt descending; the input is a value and is not changed |
| Projects.SortedProjectsStable | src/hooks/useProjects.ts:22 | projects with equal updatedAt keep their relative order |
| Utils.SortByOrder | src/lib/utils.ts:35-37 | a permutation with non-decreasing order |
| Utils.SortByOrderStable | src/lib/utils.ts:36 | items with equal order keep their input order |
| Utils.SortByOrderSorted | src/lib/utils.ts:35-37 | an already ascending list comes back unchanged |
| Utils.ReorderedMoves | src/lib/utils.ts:39-44 | same length, the same multiset, and the moved element at `end` |
| Utils.ReorderedSame | src/lib/utils.ts:39-44 | moving onto its own index changes nothing |
| Utils.ReorderedUndo | src/lib/utils.ts:39-44 | moving back from `end` to `start` restores the list |
| Utils.ReorderedIndex | src/lib/utils.ts:39-44 | the element at each index: the moved one at `end`, neighbours shifted by one between the two indices, the rest in place |
| Utils.ShiftLeft | src/lib/utils.ts:41-42 | elements from `start` up to `end` move one place left in the array |
| Utils.ShiftRight | src/lib/utils.ts:41-42 | elements after `end` up to `start` move one place right in the array |
| Utils.Reorder | src/lib/utils.ts:39-44 | the in-place splices on a copy compute Reordered |
| Utils.SpliceInsert | src/context/AppContext.tsx:305 | `splice(k, 0, x)` on an array computes InsertAt with JavaScript's index clamping |
| Utils.FormatRelativeDate | src/lib/utils.ts:21-33 | "Just now" under a minute, then "<m>m ago", "<h>h ago", "<d>d ago" with the counts in range, and formatDate from seven days |
| ApiStorage.UpdateField | src/hooks/useApiStorage.ts:79-91 | only the named field becomes the updater applied to its old value |
| ApiStorage.UpdatesOfDifferentKeysCommute | src/hooks/useApiStorage.ts:85 | updates of two different keys commute |
| ApiStorage.Storage.constructor | src/hooks/useApiStorage.ts:6-23 | the default document, not hydrated, no error, not saving, nothing pending, the load started |
| ApiStorage.Storage.LoadSettled | src/hooks/useApiStorage.ts:26-50 | while mounted, a loaded document replaces the data and clears the error, a thrown load sets "Failed to load data"; both set hydrated; after unmount nothing changes |
| ApiStorage.Storage.Update | src/hooks/useApiStorage.ts:53-62 | the data becomes UpdateField; the new document is pending and a timer is armed |
| ApiStorage.Storage.TimerFires | src/hooks/useApiStorage.ts:63-66 | a pending document is handed to saveData and isSaving is set; pending is left for the settlement |
| ApiStorage.Storage.SaveSettled | src/hooks/useApiStorage.ts:66-73 | isSaving goes false, the error becomes "Failed to save data" or none, and pending is cleared unconditionally |
| ApiStorage.Storage.TimerFiresFixed | src/hooks/useApiStorage.ts:63-75 | the corrected timer clears pending when it starts the save, and keeps Durable |
| ApiStorage.Storage.SaveSettledFixed | src/hooks/useApiStorage.ts:66-73 | the corrected settlement leaves pending alone and keeps Durable |
| ApiStorage.Storage.Unmount | src/hooks/useApiStorage.ts:94-104 | the timer is cleared and a pending document is saved; when Durable held, the last save is the latest update |
| ApiStorage.LostUpdateTrace | src/hooks/useApiStorage.ts:63-75 | an update during an in-flight save leaves the latest document unsaved and not pending (not Durable) |
| ApiStorage.FixedTrace | src/hooks/useApiStorage.ts:63-75 | the same events with the corrected timer save the latest document (Durable) |
| Api.OrElse | src/lib/api.ts:29-34 | `??`: the default exactly for null or missing, the value otherwise |
| Api.LoadData | src/lib/api.ts:21-40 | always an object with the six keys; the default document on a network error, non-ok status, bad or null body; otherwise each field with its `??` default |
| Api.LoadDataDefaults | src/lib/api.ts:29-33 | no collection field of the result is null |
| Api.LoadDataKeepsNonArray | src/lib/api.ts:29 | a non-array `projects` passes through unchanged |
| Api.LoadStored | src/lib/api.ts:28-35 | loading a well-shaped stored document gives it back |
| Api.LoadAfterPut | src/lib/api.ts:21-40 | after an accepted PUT, the next load gives the coerced document |
| Api.SaveData | src/lib/api.ts:42-59 | true exactly for an ok response |
| Api.SaveAcknowledged | src/lib/api.ts:42-59 | saveData reports success exactly when the PUT wrote, and then the file holds the coerced document |
| DataRoute.ToJson | src/app/api/data/route.ts:52-62 | the stored document as an object with exactly the six keys |
| DataRoute.Validate | src/app/api/data/route.ts:52-59 | arrays are kept and other values become `[]`; currentProjectId is kept exactly when it is a string |
| DataRoute.ValidateWellShaped | src/app/api/data/route.ts:52-59 | a well-shaped document is written unchanged |
| DataRoute.ValidateIdempotent | src/app/api/data/route.ts:52-59 | coercing twice equals coercing once |
| DataRoute.ValidateDropsOtherKeys | src/app/api/data/route.ts:52-59 | no key outside the six is written |
| DataRoute.EnsureDataFile | src/app/api/data/route.ts:25-33 | a missing file is created holding the default document, or the call fails; an existing file is untouched |
| DataRoute.HandleGet | src/app/api/data/route.ts:35-45 | status 200; the file's JSON, or the default document when the file is corrupt or missing |
| DataRoute.HandlePut | src/app/api/data/route.ts:47-72 | success exactly when the body parses to a non-null value and the writes succeed, and then the file holds the coerced document; otherwise 500 "Failed to save data" |
| DataRoute.PutThenGet | src/app/api/data/route.ts:35-72 | a GET after a successful PUT returns the coerced document |
| DataRoute.FirstGet | src/app/api/data/route.ts:25-45 | the first GET creates the file with the default document and returns it |
| DeliverableStatus.RecentlyCompleted | src/components/features/kanban/DeliverableStatusModal.tsx:31-34 | at most 3 done tasks, the newest updatedAt first, and none left out is newer than one kept; no task is shown more often than it is stored |
| DeliverableStatus.Upcoming | src/components/features/kanban/DeliverableStatusModal.tsx:37-40 | min(n, 3) of the n open tasks due after now, the earliest first, and none left out is due earlier than one kept; no task is shown more often than it is stored |
| DeliverableStatus.Summarize | src/components/features/kanban/DeliverableStatusModal.tsx:19-61 | none exactly for no card; counts add up to the total; percentage rule; overdue is exactly the open tasks due before now, with no cap, each as often as stored and in store order; highPriority likewise for the open p0/p1 tasks |
| DeliverableStatus.DueNowIsNeither | src/components/features/kanban/DeliverableStatusModal.tsx:38-44 | a task due exactly now is neither upcoming nor overdue |
| DeliverableStatus.Clause | src/components/features/kanban/DeliverableStatusModal.tsx:76-81 | the count, then the singular text for exactly one and the plural text otherwise, then the rest of the clause |
| DeliverableStatus.InProgressClause | src/components/features/kanban/DeliverableStatusModal.tsx:76-78 | "1 task is in progress", or "n tasks are in progress" for n other than 1 |
| DeliverableStatus.TodoClause | src/components/features/kanban/DeliverableStatusModal.tsx:79-81 | "1 is still to do", or "n are still to do" for n other than 1 |
| DeliverableStatus.StatusParts | src/components/features/kanban/DeliverableStatusModal.tsx:75-81 | the in-progress clause first when some task is in progress, the to-do clause last when some task is still to do, and nothing else |
| DeliverableStatus.OverdueSentence | src/components/features/kanban/DeliverableStatusModal.tsx:86-88 | "There is 1 overdue task.", or "There are n overdue tasks." for n other than 1 |
| DeliverableStatus.ParagraphParts | src/components/features/kanban/DeliverableStatusModal.tsx:66-89 | the no-tasks sentence alone; or the headline, then the status sentence (both clauses joined by " and ", or the one that applies, with a final ".") and the overdue sentence, each when it applies |
| DeliverableStatus.Paragraph | src/components/features/kanban/DeliverableStatusModal.tsx:63-92 | "" without card or summary, the no-tasks sentence for zero tasks, otherwise the headline, status and overdue sentences as listed, joined by single spaces |
| DeliverableStatus.JoinUpToThree | src/components/features/kanban/DeliverableStatusModal.tsx:90 | one, two or three parts joined by the separator, written out |
| DeliverableStatus.Bullets | src/components/features/kanban/DeliverableStatusModal.tsx:94-116 | one bullet per recent, upcoming, overdue and high-priority task |
| DeliverableStatus.BulletsOrder | src/components/features/kanban/DeliverableStatusModal.tsx:99-113 | completed bullets first, then upcoming, then overdue, then high priority, each group in summary order |
| DeliverableStatus.PushLines | src/components/features/kanban/DeliverableStatusModal.tsx:99-113 | one `for … push` loop appends one line per task |
| DeliverableStatus.GenerateBulletPoints | src/components/features/kanban/DeliverableStatusModal.tsx:94-116 | the four loops compute Bullets, and no summary gives none |
| DeliverableStatus.GeneratePlainText | src/components/features/kanban/DeliverableStatusModal.tsx:118-128 | the paragraph alone without bullets; otherwise "\n\n" and the "- "-prefixed bullets joined by newlines |
| LinksEditor.WithScheme | src/components/ui/LinksEditor.tsx:21-24 | the result has an http(s) scheme; one already there is kept, otherwise "https://" is prepended |
| LinksEditor.WithSchemeIdempotent | src/components/ui/LinksEditor.tsx:21-24 | normalising twice equals once |
| LinksEditor.LinkTitle | src/components/ui/LinksEditor.tsx:26 | the trimmed title, or none when it trims to empty |
| LinksEditor.AddLink | src/components/ui/LinksEditor.tsx:18-31 | a whitespace-only URL adds nothing; otherwise the old links followed by one link with the normalised URL and title |
| LinksEditor.AddedLinkUrl | src/components/ui/LinksEditor.tsx:19-24 | an added link's URL is non-empty and has an http(s) scheme |
| LinksEditor.UrlBodyOpens | src/app/api/open-url/route.ts:8-18 | such a URL passes both checks of the open-url route |
| LinksEditor.AddedLinkOpens | src/components/ui/LinksEditor.tsx:18-31 | every link the editor adds is one the open-url route opens |
| LinksEditor.RemoveLink | src/components/ui/LinksEditor.tsx:33-35 | exactly the element at the index is gone; an out-of-range index changes nothing |
| LinksEditor.RemoveLinkKeepsOthers | src/components/ui/LinksEditor.tsx:33-35 | the others keep their order |
| LinksEditor.RemoveAddedLink | src/components/ui/LinksEditor.tsx:18-35 | removing the link just added restores the list |
| KanbanCard.DayDifference | src/components/features/kanban/KanbanCard.tsx:28-29 | the floor of the elapsed time in days |
| KanbanCard.DaysInColumn | src/components/features/kanban/KanbanCard.tsx:24-34 | a falsy columnChangedAt gives 0 "today"; otherwise the floor day count, with "today", "1 day" or "<n> days" |
| KanbanCard.DaysInColumnExact | src/components/features/kanban/KanbanCard.tsx:27-33 | n whole days elapsed gives exactly n |
| NotesPanel.ProjectColumnIds | src/components/features/notes/NotesPanel.tsx:17 | exactly the ids of the current project's columns |
| NotesPanel.ProjectCards | src/components/features/notes/NotesPanel.tsx:18 | exactly the cards whose column belongs to the current project, each as often as stored, in store order |
| NotesPanel.ArchivedCardsAreProjectCards | src/components/features/notes/NotesPanel.tsx:17-18 | every archived card of the board is among the panel's project cards |
| NotesPanel.StripTags | src/components/features/notes/NotesPanel.tsx:50 | no `<` is followed later by `>`, so no tag survives, and the text does not grow |
| NotesPanel.StripTagsPrefix | src/components/features/notes/NotesPanel.tsx:50 | text without `<` is kept verbatim ahead of what follows |
| NotesPanel.StripTagsTagHead | src/components/features/notes/NotesPanel.tsx:50 | a leading tag `<t>` with no `>` in t becomes one space ahead of the rest stripped |
| NotesPanel.StripTagsTag | src/components/features/notes/NotesPanel.tsx:50 | `a<t>b` with no `<` in a and no `>` in t becomes a, one space, then b stripped |
| NotesPanel.StripTagsUnclosed | src/components/features/notes/NotesPanel.tsx:50 | a `<` with no later `>` is kept with all that follows |
| NotesPanel.CollapseSpaces | src/components/features/notes/NotesPanel.tsx:50 | the text does not grow and is empty exactly when the input is |
| NotesPanel.CollapseKeepsWords | src/components/features/notes/NotesPanel.tsx:50 | the characters that are not whitespace are those of the input, in order |
| NotesPanel.CollapsePrefix | src/components/features/notes/NotesPanel.tsx:50 | text without whitespace is kept verbatim ahead of what follows |
| NotesPanel.CollapseRun | src/components/features/notes/NotesPanel.tsx:50 | a whole whitespace run, of any length, becomes one space |
| NotesPanel.TrimStartRun | src/components/features/notes/NotesPanel.tsx:50 | trimming the front removes exactly a leading whitespace run |
| NotesPanel.TrimStartKeepsWords | src/components/features/notes/NotesPanel.tsx:50 | trimming the front keeps every other character in order |
| NotesPanel.TrimEndKeepsWords | src/components/features/notes/NotesPanel.tsx:50 | trimming the end keeps every other character in order |
| NotesPanel.TrimKeepsWords | src/components/features/notes/NotesPanel.tsx:50 | `trim()` keeps every other character in order |
| NotesPanel.CollapseSpacesSingleSpaced | src/components/features/notes/NotesPanel.tsx:50 | no two whitespace characters are adjacent, and a leading space is kept |
| NotesPanel.CleanText | src/components/features/notes/NotesPanel.tsx:50 | no whitespace at either end and no whitespace run, and the characters that are not whitespace are those of the tag-stripped text, in order |
| NotesPanel.TrimSingleSpaced | src/components/features/notes/NotesPanel.tsx:50 | trimming keeps text single-spaced |
| NotesPanel.Preview | src/components/features/notes/NotesPanel.tsx:49-52 | at most 63 characters; the cleaned text when it has at most 60, else its first 60 and "..." |
| NotesPanel.PreviewOfPlainText | src/components/features/notes/NotesPanel.tsx:49-52 | text with no tags or whitespace previews as its first 60 characters, plus "..." when longer |
| NotesPanel.StripTagsPlain | src/components/features/notes/NotesPanel.tsx:50 | text without `<` is unchanged by tag stripping |
| NotesPanel.CollapsePlain | src/components/features/notes/NotesPanel.tsx:50 | text without whitespace is unchanged by collapsing |
| NotesPanel.SelectionAfterDelete | src/components/features/notes/NotesPanel.tsx:40-46 | deleting another note keeps the selection; deleting the selected one selects the first listed note with another id, or none when there is none |
| NotesPanel.FirstIsFilterHead | src/components/features/notes/NotesPanel.tsx:43-44 | `filter(...)[0]` is the first element that passes |
| NotesPanel.SelectionFallback | src/components/features/notes/NotesPanel.tsx:27-31 | a listed or empty selection is kept; a missing one moves to the first listed note, or none |
| NotesPanel.SelectionFallbackIdempotent | src/components/features/notes/NotesPanel.tsx:27-31 | running the effect again changes nothing |
| NotesPanel.SelectionFallbackListed | src/components/features/notes/NotesPanel.tsx:27-31 | afterwards the selection is empty or a listed note |
| OpenUrl.EscapeQuotes | src/app/api/open-url/route.ts:18 | escaping never shortens the URL |
| OpenUrl.EscapeQuotesGuarded | src/app/api/open-url/route.ts:18 | every `"` of the escaped URL has a backslash before it, so none ends the quoted word |
| OpenUrl.EscapeQuotesNoQuote | src/app/api/open-url/route.ts:18 | a URL without `"` is unchanged: no other character is escaped |
| OpenUrl.EscapeQuotesConcat | src/app/api/open-url/route.ts:18 | the escape works character by character |
| OpenUrl.EscapeQuotesPlain | src/app/api/open-url/route.ts:18 | a URL with none of `$`, backquote, `\` reaches the shell intact |
| OpenUrl.UnquotePrefix | src/app/api/open-url/route.ts:18 | how the shell reads a quoted word extends over a literal prefix |
| OpenUrl.EscapeQuotesDollar | src/app/api/open-url/route.ts:18 | a `$` after a literal prefix survives the escape and the shell expands it |
| OpenUrl.EscapeShell | src/app/api/open-url/route.ts:18 | the corrected escape never shortens the URL |
| OpenUrl.EscapeShellGuarded | src/app/api/open-url/route.ts:18 | every `"`, `$` and backquote of the corrected escape has a backslash before it |
| OpenUrl.EscapeShellRoundTrip | src/app/api/open-url/route.ts:18 | the shell reads the corrected escape back as exactly the URL |
| OpenUrl.EscapeShellAgrees | src/app/api/open-url/route.ts:18 | on URLs without `$`, backquote or `\`, both escapes agree |
| OpenUrl.UrlOf | src/app/api/open-url/route.ts:6-10 | the url property when it is a non-empty string, otherwise none |
| OpenUrl.Handle | src/app/api/open-url/route.ts:4-24 | 500 for a body that does not parse or is null; 400 "URL is required"; 400 "Invalid URL scheme"; otherwise the `open "<escaped>"` command, given exactly when both checks pass |
| OpenUrl.OpenUrlFixedQuotes | src/app/api/open-url/route.ts:18 | with the corrected escape the shell receives exactly the requested URL |
| OpenUrl.InjectingUrlShape | src/app/api/open-url/route.ts:13 | the sample URL passes the scheme check |
| OpenUrl.InjectingUrlExpands | src/app/api/open-url/route.ts:18 | the shell does not read the escaped sample URL as plain text |
| OpenUrl.OpenUrlInjects | src/app/api/open-url/route.ts:8-20 | the route accepts the sample URL and hands the shell a command that expands `$(…)` |

## Left out

- I/O is outside the model: `fetch`, the file system, `exec` and `window.open`. Each appears only as an outcome parameter (`FetchOutcome`, `DataFile`, `createOk`, `writeOk`). `JSON.stringify` and `JSON.parse` are outside it too: documents are JSON values.
- `setTimeout`/`clearTimeout` become the events `Update`, `TimerFires`, `SaveSettled` and `Unmount`. The 300 ms delay is not modelled.
- `Date.now()` and `generateId()` (time plus randomness, src/lib/utils.ts:8-10) are the parameters `now` and `id`. Freshness of ids is an assumption in the uniqueness clauses.
- `formatDate` (`toLocaleDateString`) is a function parameter. The priority and status labels of the bullet lines are the fixed strings of src/lib/constants.ts:16-28.
- `Kanban.Percentage`: integer rounding, halves up. Float error in `(c / t) * 100` could differ at exact halves (e.g. 29 of 200).
- `NotesPanel.Preview`: counts Unicode scalar values (Dafny characters), where `slice(0, 60)` and `length` count UTF-16 code units. They differ on text outside the Basic Multilingual Plane: 59 letters then an emoji previews in the source as the 59 letters, a lone surrogate and "...", but in the model as all 60 characters with no "...".
- `Text.Lower`: lower-cases ASCII letters only. JavaScript's `toLowerCase` also maps other scripts.
- `OpenUrl.Unquote`: treats every unescaped `$` as an expansion. A shell keeps a `$` that no name or bracket follows.
- React plumbing is not modelled: contexts, memoisation, batching and closures over stale state. A state update and the effects it triggers run as one method call.
  - The selection-reset effect runs inside the action that changes `currentProjectId`.
  - The `mounted` flag of the load effect follows `Unmount`.
- `AppContext.Renumber`: its own contract states only the length. What it does is stated by `RenumberInColumn`, `RenumberIds`, `MoveCardTarget` and `MoveCardTargetKept`.
- `archiveCard`/`restoreCard`: consumed by the hooks but defined nowhere in the store, so they are not modelled. Only the read side of `archived` is.
- `linkedTaskIds`/`linkedNoteIds` of a card are never read or written by the store, so they are not modelled.
- `selectedCard` in NotesPanel.tsx:21 is a lookup used only for display.
- The load failure branch of useApiStorage.ts:37-42 is modelled, but it cannot happen: `loadData` never rejects. A failed load therefore surfaces no error.
- `isSaving` is one flag shared by overlapping saves. `SaveSettled` clears it whichever save settles, as the source does. The model does not count this as a defect.
- The store works on typed records; the routes work on JSON values. Typing the stored arrays' elements is not modelled.
- Where the description of the system and the code disagree, the model follows the code:
  - deleteColumn does not unlink tasks or notes;
  - deleteCard, moveCard and deleteColumn leave gaps in `order`;
  - reorderColumns does not renumber;
  - a `filters.cardId` of `""` filters on the empty id but sorts newest first.
- src/hooks/useLocalStorage.ts, a generic localStorage hook that none of the modelled files calls, is not modelled. Nor are the Tauri process management and the presentation components, which hold no modelled logic.

## Findings

| source | as written | input that shows it | evidently intended | confidence | as-written member | corrected member |
|---|---|---|---|---|---|---|
| src/hooks/useApiStorage.ts:73 | after `await saveData(...)` the timer callback clears `pendingDataRef` unconditionally | update A; the timer fires and the save of A starts; update B (B pending, timer armed); the save of A settles and clears the pending B; the timer fires and finds nothing pending: B is never saved | clear the pending document when the save starts (or only if it is still the saved one), so the latest update is always saved or pending | not executed | ApiStorage.LostUpdateTrace | ApiStorage.FixedTrace |
| src/app/api/open-url/route.ts:18 | only `"` is backslash-escaped inside the double-quoted shell word | `http://x/$(touch pwned)` passes both checks and reaches `/bin/sh` as a command substitution | escape `\`, `"`, `$` and backquote so the shell reads exactly the URL | not executed | OpenUrl.OpenUrlInjects | OpenUrl.EscapeShellRoundTrip |
