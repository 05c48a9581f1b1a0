/** `NoteDialog`: the add/edit form for a note. Title and content are mutable
    state changed by the two text fields; the save button forwards them
    through `onSave` only when at least one of them is not blank. */
module NoteDialog {
  import opened Kotlin
  import opened Notes

  datatype Mode = Create | Edit

  /** The save guard and the button's enabled flag: one predicate. */
  predicate CanSave(title: string, content: string)
  {
    !IsBlank(title) || !IsBlank(content)
  }

  /** A note needs no title: blank title with non-blank content is saved. */
  lemma {:induction false} UntitledNoteCanBeSaved(content: string)
    requires !IsBlank(content)
    ensures CanSave("", content)
  {
  }

  class Dialog {
    /** The note being edited, or `None` when creating one. */
    const note: Option<Note>
    var title: string
    var content: string

    /** Both fields start empty, or as the edited note's. */
    constructor (note: Option<Note>)
      ensures this.note == note
      ensures note.None? ==> title == "" && content == ""
      ensures note.Some? ==> title == note.value.title && content == note.value.content
    {
      this.note := note;
      title := if note.Some? then note.value.title else "";
      content := if note.Some? then note.value.content else "";
    }

    /** Creating when no note was passed in, editing otherwise. */
    function CurrentMode(): (m: Mode)
      reads this
      ensures m == Create <==> note.None?
    {
      if note.None? then Create else Edit
    }

    function Heading(): (s: string)
      reads this
      ensures CurrentMode() == Create <==> s == "✨ Create New Note"
    {
      if note == None then "✨ Create New Note" else "✏️ Edit Note"
    }

    /** The title field's `onValueChange`. */
    method EditTitle(s: string)
      modifies this`title
      ensures title == s
    {
      title := s;
    }

    /** The content field's `onValueChange`. */
    method EditContent(s: string)
      modifies this`content
      ensures content == s
    {
      content := s;
    }

    function SaveEnabled(): bool
      reads this
    {
      CanSave(title, content)
    }

    /** The save button's `onClick`: what reaches `onSave`, if anything. */
    method ClickSave() returns (sent: Option<NoteDraft>)
      ensures sent.Some? <==> SaveEnabled()
      ensures sent.Some? ==> sent.value == NoteDraft(title, content)
    {
      if CanSave(title, content) {
        sent := Some(NoteDraft(title, content));
      } else {
        sent := None;
      }
    }
  }
}
