/**
  The note form: a state machine over the draft `content` and `category`.
  Its props are the note to edit (or none) and whether an edit handler was
  passed. Submitting hands back what the form would pass to its callbacks
  instead of calling them; the clock readings are inputs.
 */
module NoteInput {
  import opened Wrappers
  import opened JsString
  import opened Types

  /** The category a fresh form starts with. */
  const DefaultCategory: Category := Teologia

  /** What a submit passes to the screen. */
  datatype SubmitAction =
    | Ignored                     // no callback is called
    | EditSubmitted(edited: LegacyNote)   // `onEditNote(updatedNote)`
    | AddSubmitted(added: LegacyNote)     // `onAddNote(newNote)`

  class NoteForm {
    var content: string
    var category: Category
    var noteToEdit: Option<LegacyNote>
    var hasEditHandler: bool

    /** Mounting: the draft starts empty with the default category, and the
        sync effect then runs once for the initial `noteToEdit`. */
    constructor (noteToEdit: Option<LegacyNote>, hasEditHandler: bool)
      ensures this.noteToEdit == noteToEdit && this.hasEditHandler == hasEditHandler
      ensures noteToEdit.Some? ==> content == noteToEdit.value.content && category == noteToEdit.value.category
      ensures noteToEdit.None? ==> content == "" && category == DefaultCategory
    {
      this.noteToEdit := noteToEdit;
      this.hasEditHandler := hasEditHandler;
      content := "";
      category := DefaultCategory;
      new;
      SyncNoteToEdit();
    }

    /** The effect on `noteToEdit`: a note to edit is copied into the draft;
        none resets the draft. */
    method SyncNoteToEdit()
      modifies this`content, this`category
      ensures noteToEdit.Some? ==> content == noteToEdit.value.content && category == noteToEdit.value.category
      ensures noteToEdit.None? ==> content == "" && category == DefaultCategory
    {
      if noteToEdit.Some? {
        content := noteToEdit.value.content;
        category := noteToEdit.value.category;
      } else {
        content := "";
        category := DefaultCategory;
      }
    }

    /** A new `noteToEdit` prop, followed by the effect it triggers. */
    method SetNoteToEdit(note: Option<LegacyNote>)
      modifies this`noteToEdit, this`content, this`category
      ensures noteToEdit == note
      ensures note.Some? ==> content == note.value.content && category == note.value.category
      ensures note.None? ==> content == "" && category == DefaultCategory
    {
      noteToEdit := note;
      SyncNoteToEdit();
    }

    /** Typing into the text field. */
    method ChangeText(text: string)
      modifies this`content
      ensures content == text
    {
      content := text;
    }

    /** Picking a category. */
    method SelectCategory(c: Category)
      modifies this`category
      ensures category == c
    {
      category := c;
    }

    /** The submit button's `disabled`: set exactly when the draft is all
        white space. */
    function SubmitDisabled(): (disabled: bool)
      reads this
      ensures disabled <==> forall i :: 0 <= i < |content| ==> IsWhitespace(content[i])
    {
      IsBlank(content)
    }

    /** `handleSubmit()`. A blank draft is ignored and kept. Otherwise, with a
        note to edit and an edit handler, the note is copied with the draft's
        content and category and a new update instant; without either, a new
        note is made from the draft. The draft is then reset. `now` is
        `Date.now()`; `firstStamp` and `secondStamp` are successive
        `new Date().toISOString()` readings. */
    method HandleSubmit(now: int, firstStamp: string, secondStamp: string) returns (action: SubmitAction)
      modifies this`content, this`category
      ensures IsBlank(old(content)) ==> action == Ignored && content == old(content) && category == old(category)
      ensures !IsBlank(old(content)) && noteToEdit.Some? && hasEditHandler ==>
                && action.EditSubmitted?
                && action.edited.id == noteToEdit.value.id
                && action.edited.createdAt == noteToEdit.value.createdAt
                && action.edited.content == old(content)
                && action.edited.category == old(category)
                && action.edited.updatedAt == firstStamp
      ensures !IsBlank(old(content)) && !(noteToEdit.Some? && hasEditHandler) ==>
                action == AddSubmitted(LegacyNote(now, old(content), firstStamp, secondStamp, old(category)))
      ensures !IsBlank(old(content)) ==> content == "" && category == DefaultCategory
    {
      if IsBlank(content) {
        return Ignored;
      }
      if noteToEdit.Some? && hasEditHandler {
        var updatedNote := noteToEdit.value.(content := content, category := category, updatedAt := firstStamp);
        action := EditSubmitted(updatedNote);
      } else {
        var newNote := LegacyNote(now, content, firstStamp, secondStamp, category);
        action := AddSubmitted(newNote);
      }
      content := "";
      category := DefaultCategory;
    }
  }
}
