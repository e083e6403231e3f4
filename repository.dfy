/**
 * `NoteRepository`: picks which note query the DAO runs for a search text, and forwards
 * every other call to the DAO unchanged. The DAO is the `NoteTable` value passed in.
 */
module Repository {
  import opened Wrappers
  import opened Text
  import opened NoteStore

  /** The two list queries of the DAO. Their ordering and matching rules belong to the DAO,
      which is not part of this model. */
  datatype NotesQuery = ObserveNotesByDateDesc | ObserveNotesByQuery(text: string)

  /** `observeNotes(query)`: the all-notes query exactly when the text is blank, otherwise
      the search query with the text trimmed, which is then non-empty with no whitespace at
      either end. */
  function ObserveNotes(query: string): (r: NotesQuery)
    ensures r == ObserveNotesByDateDesc <==> IsBlank(query)
    ensures r.ObserveNotesByQuery? ==> r.text == Trim(query) && r.text != [] && IsTrimmed(r.text)
  {
    if IsBlank(query) then
      ObserveNotesByDateDesc
    else
      TrimEmptyIffBlank(query);
      ObserveNotesByQuery(Trim(query))
  }

  /** Search texts that differ only in leading or trailing whitespace select the same query
      with the same argument. */
  lemma ObserveNotesIgnoresPadding(p: string, s: string, q: string)
    requires IsBlank(p) && IsBlank(q)
    ensures ObserveNotes(p + s + q) == ObserveNotes(s)
  {
    BlankIgnoresPadding(p, s, q);
    if !IsBlank(s) {
      TrimIgnoresPadding(p, s, q);
    }
  }

  /** `observeNote(id)`: forwards the id and returns the DAO's answer. */
  function ObserveNote(dao: NoteTable, id: int): (r: Option<Note>)
    ensures r == dao.Lookup(id)
  {
    dao.Lookup(id)
  }

  /** `upsert(note)`: forwards the note and returns the DAO's new state and key. */
  function Upsert(dao: NoteTable, note: Note): (r: (NoteTable, int))
    requires dao.WellFormed()
    ensures r == dao.Upsert(note)
  {
    dao.Upsert(note)
  }

  /** `update(note)`: forwards the note. */
  function Update(dao: NoteTable, note: Note): (r: NoteTable)
    ensures r == dao.Update(note)
  {
    dao.Update(note)
  }

  /** `delete(note)`: forwards the note. */
  function Delete(dao: NoteTable, note: Note): (r: NoteTable)
    ensures r == dao.Delete(note)
  {
    dao.Delete(note)
  }
}
