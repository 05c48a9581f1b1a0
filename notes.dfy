/** The `Note` record shared by the notes screen and the note dialog. */
module Notes {
  import opened Kotlin

  /** `data class Note`: equality is structural, `copy` is the `.(f := v)` update. */
  datatype Note = Note(
    id: Int32,
    userId: Int32,
    title: string,
    content: string,
    createdAt: Int64,
    updatedAt: Int64)

  /** What the dialog hands to `onSave`: title and content. */
  datatype NoteDraft = NoteDraft(title: string, content: string)
}
