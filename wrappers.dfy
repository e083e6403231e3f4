/** Optional values: Kotlin's nullable types (`Long?`, `NoteEntity?`). */
module Wrappers {
  datatype Option<+T> = None | Some(value: T)
}
