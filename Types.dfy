/** The two note records of the app. */
module Types {

  /** The record persisted by the storage layer and read by the statistics
      screen: string id, free-text category, numeric timestamp. */
  datatype Note = Note(id: string, title: string, content: string, category: string, timestamp: int)

  /** The closed category set of the legacy schema. */
  datatype Category = Teologia | Filosofia

  /** The legacy record used by the notes screen and the note form: numeric id
      (a clock reading), ISO-formatted creation and update instants. */
  datatype LegacyNote = LegacyNote(id: int, content: string, createdAt: string, updatedAt: string, category: Category)
}
