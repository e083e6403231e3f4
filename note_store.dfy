/**
 * The persisted note row (`NoteEntity`) and an in-memory stand-in for the note DAO.
 * The DAO's own source is not part of this model; the table below states only the
 * key semantics the controller relies on: inserting a note with id 0 assigns a fresh,
 * non-zero key, writing a note with id k replaces row k, and deleting works by key.
 */
module NoteStore {
  import opened Wrappers

  /** `NoteEntity(id, title, content, updatedAt)`; id 0 means "not yet persisted". */
  datatype Note = Note(id: int, title: string, content: string, updatedAt: int)

  /** The note table: rows by key, and the next key the store hands out for a new row
      (it stays above every key in use, so the key it hands out is always fresh). */
  datatype NoteTable = NoteTable(rows: map<int, Note>, nextKey: int) {

    /** No row has key 0, every row carries its own key, and `nextKey` is above every key. */
    predicate WellFormed()
      ensures WellFormed() ==> 0 !in rows && nextKey !in rows
    {
      nextKey > 0 && forall k :: k in rows ==> k != 0 && k < nextKey && rows[k].id == k
    }

    /** `observeNoteById`, read as a snapshot: the row with that key, if any. */
    function Lookup(id: int): (r: Option<Note>)
      ensures r.Some? <==> id in rows
      ensures r.Some? ==> r.value == rows[id]
      ensures WellFormed() && r.Some? ==> r.value.id == id && id != 0
    {
      if id in rows then Some(rows[id]) else None
    }

    /** Insert-or-replace. A note with id 0 gets a fresh non-zero key and is stored under it;
        any other note replaces the row under its own id. Returns the key written. */
    function Upsert(note: Note): (res: (NoteTable, int))
      requires WellFormed()
      ensures res.0.WellFormed()
      ensures res.1 != 0 && res.1 in res.0.rows
      ensures note.id == 0 ==> res.1 !in rows && res.0.rows == rows[res.1 := note.(id := res.1)]
      ensures note.id != 0 ==> res.1 == note.id && res.0.rows == rows[note.id := note]
    {
      if note.id == 0 then
        (NoteTable(rows[nextKey := note.(id := nextKey)], nextKey + 1), nextKey)
      else
        var next := if note.id < nextKey then nextKey else note.id + 1;
        (NoteTable(rows[note.id := note], next), note.id)
    }

    /** Update by key: replaces an existing row, and changes nothing when there is none. */
    function Update(note: Note): (t: NoteTable)
      ensures WellFormed() ==> t.WellFormed()
      ensures note.id in rows ==> t.rows == rows[note.id := note]
      ensures note.id !in rows ==> t == this
    {
      if note.id in rows then NoteTable(rows[note.id := note], nextKey) else this
    }

    /** Delete by key: the other fields of `note` play no part. */
    function Delete(note: Note): (t: NoteTable)
      ensures WellFormed() ==> t.WellFormed()
      ensures t.rows.Keys == rows.Keys - {note.id}
      ensures forall k :: k in t.rows ==> t.rows[k] == rows[k]
    {
      NoteTable(rows - {note.id}, nextKey)
    }
  }
}
