/**
 * `NotesViewModel`: the state holder between the two screens and the repository.
 * The list side keeps the search text and the sort direction; the editor side keeps the note
 * being edited. Each operation is one atomic step; the clock is passed in as `now`, and the
 * DAO is the note table the controller owns.
 */
module NotesViewModel {
  import opened Wrappers
  import opened Text
  import opened NoteStore
  import Repository
  import opened NoteSort

  /** `NoteEditorState(id, title, content, lastSavedAt)`; id 0 is a note not yet saved. */
  datatype NoteEditorState = NoteEditorState(id: int, title: string, content: string, lastSavedAt: int)

  /** `NoteEditorState()`: every field at its default. It is an unsaved note, and saving it
      stores an untitled, empty note. */
  function DefaultEditor(): (e: NoteEditorState)
    ensures e.id == 0 && e.lastSavedAt == 0
    ensures e.title == [] && e.content == []
    ensures forall now :: DraftNote(e, now) == Note(0, UntitledTitle, "", now)
  {
    NoteEditorState(0, "", "", 0)
  }

  /** The title stored for a note whose title is blank ("Untitled"). */
  const UntitledTitle := "Без названия"

  /** The editor state a stored note is loaded into. */
  function EditorFor(note: Note): (e: NoteEditorState)
    ensures e.id == note.id && e.title == note.title && e.content == note.content
    ensures e.lastSavedAt == note.updatedAt
    ensures EditorRecord(e) == note
  {
    NoteEditorState(note.id, note.title, note.content, note.updatedAt)
  }

  /** The record `deleteCurrentNote` hands to the store: the editor's fields as they are,
      with `lastSavedAt` as `updatedAt`. */
  function EditorRecord(e: NoteEditorState): (note: Note)
    ensures note.id == e.id && note.title == e.title && note.content == e.content
    ensures note.updatedAt == e.lastSavedAt
  {
    Note(e.id, e.title, e.content, e.lastSavedAt)
  }

  lemma UntitledIsClean()
    ensures !IsBlank(UntitledTitle) && IsTrimmed(UntitledTitle)
  {
    assert !IsWhitespace(UntitledTitle[0]);
    assert !IsWhitespace(UntitledTitle[|UntitledTitle| - 1]);
  }

  /** The title `saveDraft` stores: the draft title trimmed, or the placeholder when that is
      blank. Either way it is non-blank, with no whitespace at its ends. */
  function SavedTitle(title: string): (r: string)
    ensures !IsBlank(r) && IsTrimmed(r)
    ensures IsBlank(title) ==> r == UntitledTitle
    ensures !IsBlank(title) ==> r == Trim(title)
  {
    TrimEmptyIffBlank(title);
    UntitledIsClean();
    IfBlank(Trim(title), UntitledTitle)
  }

  /** The note `saveDraft` writes: the title as `SavedTitle` gives it, the content trimmed,
      stamped with `now`, under the draft's id. */
  function DraftNote(draft: NoteEditorState, now: int): (note: Note)
    ensures note.id == draft.id && note.updatedAt == now
    ensures !IsBlank(note.title) && IsTrimmed(note.title)
    ensures IsBlank(draft.title) ==> note.title == UntitledTitle
    ensures !IsBlank(draft.title) ==> note.title == Trim(draft.title)
    ensures note.content == Trim(draft.content) && IsTrimmed(note.content)
  {
    Note(draft.id, SavedTitle(draft.title), Trim(draft.content), now)
  }

  /** Every stored note has a non-blank title and no whitespace around its title or content:
      the shape `saveDraft` gives the notes it writes. */
  predicate RowsNormalized(rows: map<int, Note>) {
    forall k :: k in rows ==>
      !IsBlank(rows[k].title) && IsTrimmed(rows[k].title) && IsTrimmed(rows[k].content)
  }

  /** The note `saveDraft` writes depends on the draft's text and id only. */
  lemma DraftNoteIgnoresLastSaved(draft: NoteEditorState, id: int, at: int, now: int)
    ensures DraftNote(draft.(id := id, lastSavedAt := at), now) == DraftNote(draft, now).(id := id)
  {
  }

  /** Text that is already clean is saved exactly as typed. */
  lemma DraftNoteOfCleanText(draft: NoteEditorState, now: int)
    requires !IsBlank(draft.title) && IsTrimmed(draft.title) && IsTrimmed(draft.content)
    ensures DraftNote(draft, now) == Note(draft.id, draft.title, draft.content, now)
  {
    TrimOfTrimmed(draft.title);
    TrimOfTrimmed(draft.content);
  }

  lemma NormalizedAfterWrite(rows: map<int, Note>, k: int, note: Note)
    requires RowsNormalized(rows)
    requires !IsBlank(note.title) && IsTrimmed(note.title) && IsTrimmed(note.content)
    ensures RowsNormalized(rows[k := note])
  {
  }

  lemma NormalizedAfterRemove(rows: map<int, Note>, k: int)
    requires RowsNormalized(rows)
    ensures RowsNormalized(rows - {k})
  {
  }

  /** One save on table values: where the draft lands, and that the table stays well formed
      and normalised. */
  lemma SaveStep(t: NoteTable, draft: NoteEditorState, now: int, w: (NoteTable, int), saved: NoteEditorState)
    requires t.WellFormed()
    requires w == t.Upsert(DraftNote(draft, now))
    requires saved == draft.(id := w.1, lastSavedAt := now)
    ensures w.0.WellFormed()
    ensures draft.id != 0 ==> w.1 == draft.id
    ensures draft.id == 0 ==> w.1 != 0 && w.1 !in t.rows
    ensures w.0.rows == t.rows[saved.id := DraftNote(saved, now)]
    ensures RowsNormalized(t.rows) ==> RowsNormalized(w.0.rows)
  {
    var note := DraftNote(draft, now);
    assert w.0.rows == t.rows[w.1 := note.(id := w.1)];
    DraftNoteIgnoresLastSaved(draft, w.1, now, now);
    if RowsNormalized(t.rows) {
      NormalizedAfterWrite(t.rows, w.1, note.(id := w.1));
    }
  }

  class NotesController {
    var searchQuery: string
    var sortAscending: bool
    var editor: NoteEditorState
    var table: NoteTable

    ghost predicate Valid()
      reads this
    {
      table.WellFormed()
    }

    /** A fresh view model over the given note table: empty search, newest first, blank editor. */
    constructor (dao: NoteTable)
      requires dao.WellFormed()
      ensures Valid()
      ensures searchQuery == "" && !sortAscending && editor == DefaultEditor() && table == dao
    {
      searchQuery := "";
      sortAscending := false;
      editor := DefaultEditor();
      table := dao;
    }

    /** The DAO query the list is currently drawn from: all notes while the search text is
        blank, otherwise the search on the trimmed text. */
    function NotesQuery(): (q: Repository.NotesQuery)
      reads this
      ensures q == Repository.ObserveNotesByDateDesc <==> IsBlank(searchQuery)
      ensures q.ObserveNotesByQuery? ==> q.text == Trim(searchQuery)
    {
      Repository.ObserveNotes(searchQuery)
    }

    /** `notesState` for a batch the current query delivered: the batch itself when descending;
        when ascending, the batch stably sorted by `updatedAt`. */
    function NotesState(batch: seq<Note>): (r: seq<Note>)
      reads this
      ensures !sortAscending ==> r == batch
      ensures sortAscending ==> SortedByUpdatedAt(r) && multiset(r) == multiset(batch)
      ensures sortAscending ==> forall v :: KeyRun(r, v) == KeyRun(batch, v)
    {
      AscendingIsStable(batch);
      VisibleNotes(batch, sortAscending)
    }

    /** `updateSearchQuery(value)`: stores the text verbatim; nothing else changes. */
    method UpdateSearchQuery(value: string)
      requires Valid()
      modifies this
      ensures Valid()
      ensures searchQuery == value
      ensures sortAscending == old(sortAscending) && editor == old(editor) && table == old(table)
    {
      searchQuery := value;
    }

    /** `toggleSortOrder()`: flips the direction; nothing else changes. */
    method ToggleSortOrder()
      requires Valid()
      modifies this
      ensures Valid()
      ensures sortAscending == !old(sortAscending)
      ensures searchQuery == old(searchQuery) && editor == old(editor) && table == old(table)
    {
      sortAscending := !sortAscending;
    }

    /** `loadNote(noteId)`: null or 0 opens a blank editor; another id loads that stored note,
        and leaves the editor as it was when the store has no such note. */
    method LoadNote(noteId: Option<int>)
      requires Valid()
      modifies this
      ensures Valid()
      ensures noteId == None || noteId == Some(0) ==> editor == DefaultEditor()
      ensures noteId.Some? && noteId.value != 0 && noteId.value in table.rows ==>
                editor == EditorFor(table.rows[noteId.value]) && editor.id == noteId.value
      ensures noteId.Some? && noteId.value !in table.rows && noteId.value != 0 ==> editor == old(editor)
      ensures searchQuery == old(searchQuery) && sortAscending == old(sortAscending) && table == old(table)
    {
      if noteId.None? || noteId.value == 0 {
        editor := DefaultEditor();
        return;
      }
      var note := Repository.ObserveNote(table, noteId.value);
      if note.Some? {
        editor := EditorFor(note.value);
      }
    }

    /** `updateDraft(title, content)`: replaces the draft text only. */
    method UpdateDraft(title: string, content: string)
      requires Valid()
      modifies this
      ensures Valid()
      ensures editor == old(editor).(title := title, content := content)
      ensures searchQuery == old(searchQuery) && sortAscending == old(sortAscending) && table == old(table)
    {
      editor := editor.(title := title, content := content);
    }

    /** `saveDraft()` at time `now`: writes the normalised draft under the editor's id, or
        under a fresh key when the draft is new, and keeps that key in the editor so later
        saves replace the same row. The editor keeps the untrimmed text. */
    method SaveDraft(now: int)
      requires Valid()
      modifies this
      ensures Valid()
      ensures old(editor.id) != 0 ==> editor.id == old(editor.id)
      ensures old(editor.id) == 0 ==> editor.id != 0 && editor.id !in old(table.rows)
      ensures editor == old(editor).(id := editor.id, lastSavedAt := now)
      ensures table.rows == old(table.rows)[editor.id := DraftNote(editor, now)]
      ensures old(RowsNormalized(table.rows)) ==> RowsNormalized(table.rows)
      ensures searchQuery == old(searchQuery) && sortAscending == old(sortAscending)
    {
      var note := DraftNote(editor, now);
      var written := Repository.Upsert(table, note);
      var saved := editor.(id := if editor.id == 0 then written.1 else editor.id, lastSavedAt := now);
      SaveStep(table, editor, now, written, saved);
      table := written.0;
      editor := saved;
    }

    /** `deleteCurrentNote()`: nothing for an unsaved draft; otherwise removes exactly the row
        under the editor's id. The editor itself is left as it is. */
    method DeleteCurrentNote()
      requires Valid()
      modifies this
      ensures Valid()
      ensures old(editor.id) == 0 ==> table == old(table)
      ensures old(editor.id) != 0 ==> table == Repository.Delete(old(table), EditorRecord(old(editor)))
      ensures table.rows.Keys == old(table.rows.Keys) - {editor.id}
      ensures forall k :: k in table.rows ==> table.rows[k] == old(table.rows[k])
      ensures old(RowsNormalized(table.rows)) ==> RowsNormalized(table.rows)
      ensures editor == old(editor) && searchQuery == old(searchQuery) && sortAscending == old(sortAscending)
    {
      var draft := editor;
      if draft.id == 0 {
        return;
      }
      table := Repository.Delete(table, EditorRecord(draft));
      assert table.rows == old(table.rows) - {draft.id};
      if RowsNormalized(old(table.rows)) {
        NormalizedAfterRemove(old(table.rows), draft.id);
      }
    }
  }

  /** Toggling the sort order twice restores it. */
  method ToggleTwiceRestores(c: NotesController)
    requires c.Valid()
    modifies c
    ensures c.Valid()
    ensures c.sortAscending == old(c.sortAscending)
    ensures c.searchQuery == old(c.searchQuery) && c.editor == old(c.editor) && c.table == old(c.table)
  {
    c.ToggleSortOrder();
    c.ToggleSortOrder();
  }

  /** A new note saved twice, with an edit in between, ends up as one new row holding the
      second draft: the second save replaces the row the first one created. */
  method RepeatedSavesTargetOneRow(c: NotesController, t1: int, t2: int, title: string, content: string)
    requires c.Valid()
    modifies c
    ensures c.Valid()
    ensures c.editor.id != 0 && c.editor.id !in old(c.table.rows)
    ensures c.table.rows.Keys == old(c.table.rows.Keys) + {c.editor.id}
    ensures c.editor.title == title && c.editor.content == content && c.editor.lastSavedAt == t2
    ensures c.table.rows[c.editor.id] == DraftNote(NoteEditorState(c.editor.id, title, content, t2), t2)
    ensures forall k :: k in old(c.table.rows) ==> c.table.rows[k] == old(c.table.rows[k])
  {
    c.LoadNote(None);
    c.SaveDraft(t1);
    var id := c.editor.id;
    c.UpdateDraft(title, content);
    c.SaveDraft(t2);
    assert c.editor.id == id;
  }

  /** Opening a new note, typing "Shopping" / "milk, eggs" and saving leaves exactly one new
      note with that title and content under a fresh key. */
  method ShoppingScenario(c: NotesController, now: int)
    requires c.Valid()
    modifies c
    ensures c.Valid()
    ensures c.editor.id != 0 && c.editor.id !in old(c.table.rows)
    ensures c.table.rows.Keys == old(c.table.rows.Keys) + {c.editor.id}
    ensures c.table.rows[c.editor.id] == Note(c.editor.id, "Shopping", "milk, eggs", now)
    ensures forall k :: k in old(c.table.rows) ==> c.table.rows[k] == old(c.table.rows[k])
  {
    c.LoadNote(None);
    c.UpdateDraft("Shopping", "milk, eggs");
    assert !IsWhitespace("Shopping"[0]);
    assert IsTrimmed("Shopping") && IsTrimmed("milk, eggs");
    DraftNoteOfCleanText(c.editor, now);
    c.SaveDraft(now);
  }
}
