# Notes: the note state controller, modelled in Dafny

A model of the state holder of a single-user Android notes app (`NotesViewModel`) and the
repository it talks to (`NoteRepository`). The view model keeps two things for the screens:

- the list side: the search text and the sort direction, from which the visible list is
  derived (the DAO's list query for the search text, re-sorted by `updatedAt` when ascending);
- the editor side: `NoteEditorState(id, title, content, lastSavedAt)`, where id 0 stands for
  a note that has not been saved yet.

The model is one class, `NotesViewModel.NotesController`, with the fields `searchQuery`,
`sortAscending`, `editor` and `table`. `table` is an in-memory note table that stands in for
the Room DAO. Each operation of the view model is a method with a full contract: what changes,
and that nothing else does. The pure parts of the source are functions with their own lemmas:
- the `sortedBy` list step (`NoteSort`);
- the repository's query selection and forwarding (`Repository`);
- the Kotlin string functions the core uses: `isBlank`, `trim` and `ifBlank` (`Text`).

Modules and files:

| file | module | models |
|---|---|---|
| wrappers.dfy | `Wrappers` | `Option`, for Kotlin's nullable `Long?` and `NoteEntity?` |
| text.dfy | `Text` | `Char.isWhitespace`, `isBlank`, `trim`, `ifBlank` |
| note_store.dfy | `NoteStore` | `NoteEntity` and the DAO's key semantics |
| repository.dfy | `Repository` | `NoteRepository` |
| note_sort.dfy | `NoteSort` | the `notesState` sort step |
| notes_view_model.dfy | `NotesViewModel` | `NotesViewModel`, `NoteEditorState` |

Assumptions about the DAO. Its source (`NoteDao`, `NoteEntity`) is not part of this model.
The entity's fields are taken from the constructor call at NotesViewModel.kt:84-89.
`NoteStore.NoteTable` states only the key semantics the view model relies on:
- `upsert` of a note with id 0 stores it under a fresh, non-zero key and returns that key;
- `upsert` of a note with id k replaces row k;
- `update` replaces an existing row and otherwise changes nothing;
- `delete` removes by key.

To make the fresh key concrete, the table keeps `nextKey`, which stays above every key in use.
The proofs rely only on the key being fresh and non-zero. The DAO's list queries (their
ordering and their matching rule) are not modelled: the list step takes the delivered batch as
a parameter. The clock (`System.currentTimeMillis()`) becomes the parameter `now` of `SaveDraft`.

What the view model does at its edges:
- `loadNote` with an id that is absent from the store leaves the editor unchanged, because the
  copy is guarded by `note?.let` (NotesViewModel.kt:61).
- Only a null id or id 0 resets the editor to its defaults (NotesViewModel.kt:55-58).
- When descending, the list is the DAO's batch as delivered: the sort step returns `notes`
  unchanged on that branch (NotesViewModel.kt:36-38).

## Model

| member | source | states |
|---|---|---|
| Text.IfBlank | app/src/main/java/com/example/notes/viewmodel/NotesViewModel.kt:86 | `ifBlank`: the default exactly when the text is blank, the text itself otherwise |
| Text.IsWhitespace | app/src/main/java/com/example/notes/data/NoteRepository.kt:9-12 | Kotlin's `Char.isWhitespace`, which `isBlank` and `trim` test: space, tab, newline, carriage return and no-break space are whitespace; ASCII letters and digits are not |
| Text.IsBlank | app/src/main/java/com/example/notes/data/NoteRepository.kt:9 | `isBlank()`: the empty text is blank, and a non-empty blank text starts and ends with whitespace |
| Text.Trim | app/src/main/java/com/example/notes/data/NoteRepository.kt:12 | `trim()` is no longer than its input and has no whitespace at either end |
| Text.TrimDecomposes | app/src/main/java/com/example/notes/data/NoteRepository.kt:12 | `trim()` removes only blank text: the input is the result with blank text before and after it |
| Text.TrimEmptyIffBlank | app/src/main/java/com/example/notes/data/NoteRepository.kt:9-12 | `trim()` is empty if and only if the text is blank |
| Text.TrimOfPadded | app/src/main/java/com/example/notes/data/NoteRepository.kt:12 | characterisation: trimming a trimmed text padded with blank text on both sides gives that text back |
| Text.TrimOfTrimmed | app/src/main/java/com/example/notes/viewmodel/NotesViewModel.kt:86-87 | a text with no whitespace at its ends is its own `trim()` |
| Text.TrimIdempotent | app/src/main/java/com/example/notes/viewmodel/NotesViewModel.kt:86-87 | trimming twice is trimming once |
| Text.TrimIgnoresPadding | app/src/main/java/com/example/notes/data/NoteRepository.kt:12 | texts that differ only in leading or trailing whitespace trim to the same text |
| Text.BlankIgnoresPadding | app/src/main/java/com/example/notes/data/NoteRepository.kt:9 | leading or trailing whitespace does not change whether a text is blank |
| Text.TrimStartIsSuffix | app/src/main/java/com/example/notes/data/NoteRepository.kt:12 | the front part of `trim()` keeps a suffix and drops only whitespace |
| Text.TrimEndIsPrefix | app/src/main/java/com/example/notes/data/NoteRepository.kt:12 | the back part of `trim()` keeps a prefix and drops only whitespace |
| NoteStore.NoteTable.WellFormed | app/src/main/java/com/example/notes/data/NoteRepository.kt:18 | the table invariant: a well-formed table has no row under key 0 and none under the next key it hands out |
| NoteStore.NoteTable.Lookup | app/src/main/java/com/example/notes/data/NoteRepository.kt:16 | a note is found exactly when its key is stored, and it is the stored row, carrying that non-zero id |
| NoteStore.NoteTable.Upsert | app/src/main/java/com/example/notes/data/NoteRepository.kt:18 | id 0: stored under a fresh non-zero key, which is returned; id k: row k replaced and k returned; the table stays well formed |
| NoteStore.NoteTable.Update | app/src/main/java/com/example/notes/data/NoteRepository.kt:20 | replaces an existing row by key, changes nothing when the key is absent |
| NoteStore.NoteTable.Delete | app/src/main/java/com/example/notes/data/NoteRepository.kt:22 | removes exactly the row under the record's id; every other row is kept as it was |
| Repository.ObserveNotes | app/src/main/java/com/example/notes/data/NoteRepository.kt:8-14 | all-notes query if and only if the text is blank; otherwise the search query on the trimmed text, which is non-empty and has no whitespace at its ends |
| Repository.ObserveNotesIgnoresPadding | app/src/main/java/com/example/notes/data/NoteRepository.kt:8-13 | texts that differ only in leading or trailing whitespace select the same query with the same argument |
| Repository.ObserveNote | app/src/main/java/com/example/notes/data/NoteRepository.kt:16 | forwards the id and returns the DAO's answer unchanged |
| Repository.Upsert | app/src/main/java/com/example/notes/data/NoteRepository.kt:18 | forwards the note and returns the DAO's result unchanged |
| Repository.Update | app/src/main/java/com/example/notes/data/NoteRepository.kt:20 | forwards the note and returns the DAO's result unchanged |
| Repository.Delete | app/src/main/java/com/example/notes/data/NoteRepository.kt:22 | forwards the note and returns the DAO's result unchanged |
| NoteSort.KeyRun | app/src/main/java/com/example/notes/viewmodel/NotesViewModel.kt:35 | the run of a key is no longer than the list and holds only notes with that `updatedAt` |
| NoteSort.KeyRunMembers | app/src/main/java/com/example/notes/viewmodel/NotesViewModel.kt:35 | a note is in the run of a key exactly when it is in the list and has that `updatedAt` |
| NoteSort.Insert | app/src/main/java/com/example/notes/viewmodel/NotesViewModel.kt:35 | one insertion step: a permutation of the list plus the note, sorted when the list was |
| NoteSort.SortByUpdatedAt | app/src/main/java/com/example/notes/viewmodel/NotesViewModel.kt:35 | `sortedBy { it.updatedAt }` is non-decreasing in `updatedAt` and a permutation of its input |
| NoteSort.VisibleNotes | app/src/main/java/com/example/notes/viewmodel/NotesViewModel.kt:33-39 | descending: the batch unchanged; ascending: a sorted permutation of the batch |
| NoteSort.SortIsStable | app/src/main/java/com/example/notes/viewmodel/NotesViewModel.kt:35 | notes with equal `updatedAt` keep their relative order |
| NoteSort.AscendingIsStable | app/src/main/java/com/example/notes/viewmodel/NotesViewModel.kt:34-36 | the ascending list step keeps every run of equal `updatedAt` in batch order |
| NoteSort.StableSortIsUnique | app/src/main/java/com/example/notes/viewmodel/NotesViewModel.kt:35 | any sorted list that keeps the batch's runs of equal `updatedAt` in order is exactly the sorted batch |
| NoteSort.SortKeepsSorted | app/src/main/java/com/example/notes/viewmodel/NotesViewModel.kt:35 | a batch already in ascending order comes back unchanged |
| NoteSort.AscendingReversesTwoNotes | app/src/main/java/com/example/notes/viewmodel/NotesViewModel.kt:33-39 | two notes delivered as [200, 100] show as [200, 100] descending and [100, 200] ascending |
| NotesViewModel.DefaultEditor | app/src/main/java/com/example/notes/viewmodel/NotesViewModel.kt:121-126 | `NoteEditorState()` is an unsaved note (id 0, `lastSavedAt` 0) with empty text; saving it at `now` stores an untitled, empty note stamped `now` |
| NotesViewModel.EditorFor | app/src/main/java/com/example/notes/viewmodel/NotesViewModel.kt:62-67 | loading copies id, title and content, with `updatedAt` as `lastSavedAt`; turning it back into a record gives the note again |
| NotesViewModel.EditorRecord | app/src/main/java/com/example/notes/viewmodel/NotesViewModel.kt:100-105 | the delete record carries the editor's id, title and content, with `lastSavedAt` as `updatedAt` |
| NotesViewModel.SavedTitle | app/src/main/java/com/example/notes/viewmodel/NotesViewModel.kt:86 | the stored title is never blank and has no whitespace at its ends; it is the placeholder exactly for a blank draft title, the trimmed title otherwise |
| NotesViewModel.DraftNote | app/src/main/java/com/example/notes/viewmodel/NotesViewModel.kt:84-89 | the note to save keeps the draft id, has a non-blank trimmed title, the trimmed content and `updatedAt = now` |
| NotesViewModel.DraftNoteOfCleanText | app/src/main/java/com/example/notes/viewmodel/NotesViewModel.kt:86-87 | a draft whose text is already clean is saved exactly as typed |
| NotesViewModel.SaveStep | app/src/main/java/com/example/notes/viewmodel/NotesViewModel.kt:84-91 | one save on table values: the draft's row is the only one written, under the kept id or a fresh key; well-formedness and normalised rows are preserved |
| NotesViewModel.NotesController.constructor | app/src/main/java/com/example/notes/viewmodel/NotesViewModel.kt:19-21 | initial state: empty search text, descending, default editor, the given table |
| NotesViewModel.NotesController.NotesQuery | app/src/main/java/com/example/notes/viewmodel/NotesViewModel.kt:32-33 | the list is drawn from the all-notes query exactly while the search text is blank, otherwise from the search on the trimmed text |
| NotesViewModel.NotesController.NotesState | app/src/main/java/com/example/notes/viewmodel/NotesViewModel.kt:33-39 | descending: the delivered batch; ascending: a sorted, stable permutation of it |
| NotesViewModel.NotesController.UpdateSearchQuery | app/src/main/java/com/example/notes/viewmodel/NotesViewModel.kt:45-47 | stores the text verbatim; sort, editor and table unchanged |
| NotesViewModel.NotesController.ToggleSortOrder | app/src/main/java/com/example/notes/viewmodel/NotesViewModel.kt:49-51 | negates the sort direction; nothing else changes |
| NotesViewModel.NotesController.LoadNote | app/src/main/java/com/example/notes/viewmodel/NotesViewModel.kt:53-69 | null or 0: default editor; a stored id: that note's fields; an absent id: editor unchanged; the table is untouched |
| NotesViewModel.NotesController.UpdateDraft | app/src/main/java/com/example/notes/viewmodel/NotesViewModel.kt:73-78 | only title and content change; id, `lastSavedAt` and the table are kept |
| NotesViewModel.NotesController.SaveDraft | app/src/main/java/com/example/notes/viewmodel/NotesViewModel.kt:80-93 | writes the normalised draft under the editor id, or under a fresh non-zero key that the editor then keeps; `lastSavedAt = now`; the editor keeps the untrimmed text; no other row changes |
| NotesViewModel.NotesController.DeleteCurrentNote | app/src/main/java/com/example/notes/viewmodel/NotesViewModel.kt:95-108 | id 0: table untouched; otherwise exactly row `id` is removed, through a delete of the editor's record; the editor is unchanged |
| NotesViewModel.ToggleTwiceRestores | app/src/main/java/com/example/notes/viewmodel/NotesViewModel.kt:49-51 | toggling twice restores the sort direction and changes nothing else |
| NotesViewModel.RepeatedSavesTargetOneRow | app/src/main/java/com/example/notes/viewmodel/NotesViewModel.kt:90-91 | a new note saved twice, edited in between, adds exactly one row under a fresh key, holding the second draft saved at `t2`; the editor ends with that title and content and `lastSavedAt = t2`; every earlier row is kept |
| NotesViewModel.ShoppingScenario | app/src/main/java/com/example/notes/viewmodel/NotesViewModel.kt:73-93 | new note, "Shopping" / "milk, eggs", saved: exactly one new row with that text under a fresh key; every earlier row is kept |

## Left out

- Coroutines: `viewModelScope.launch`, the `noteJob` cancellation, `flatMapLatest`'s suppression of stale results and `stateIn(WhileSubscribed)` with its initial empty list are concurrency plumbing. Each operation is one atomic step.
- NotesViewModel.NotesController.SaveDraft: the draft is captured before the write in the source, and the editor state is written back after it. An edit made during the write would be overwritten. That race is not modelled, because the save is one step.
- NotesViewModel.NotesController.LoadNote: reads one snapshot of the stored note. The source keeps collecting the live query, so a later write to the note would overwrite the editor again. The editor's text would then be the trimmed stored text. Live-query push updates are not modelled.
- The 800 ms debounce and the `readyToSave` guard in NoteEditorScreen.kt are timer and UI behaviour.
- Compose screens (NotesListScreen.kt, NoteEditorScreen.kt, NoteCard.kt) and their display placeholders only render.
- Navigation and wiring (MainActivity.kt, `NotesViewModelFactory` and its class check), the database singleton (NotesDatabase.kt) and Color.kt are not part of this model.
- Date formatting (`formatTimestamp`) depends on java.time and the time zone. The clock is the parameter `now`.
- DAO queries: the all-notes ordering and the search matching rule belong to `NoteDao`, which is not part of this model. The list step takes the delivered batch as input, and nothing is claimed about its order or filtering.
- NoteStore.NoteTable.Upsert: the DAO's real return value for a replaced row is not known. The model returns the row's id. The view model ignores this value when the id is not 0.
- Ids and timestamps are Kotlin `Long`s. The model uses unbounded integers, so 64-bit overflow of the key counter or of `now` is not modelled.
