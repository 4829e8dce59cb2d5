/**
  The domain entity Note: a fixed id, editable title, content and category,
  and a timestamp refreshed from the clock. The clock reading is an input.
 */
module DomainNote {
  import opened JsString

  class Note {
    const id: string
    var title: string
    var content: string
    var category: string
    var timestamp: int

    constructor (id: string, title: string, content: string, category: string, timestamp: int)
      ensures this.id == id && this.title == title && this.content == content
      ensures this.category == category && this.timestamp == timestamp
    {
      this.id := id;
      this.title := title;
      this.content := content;
      this.category := category;
      this.timestamp := timestamp;
    }

    /** `isValid()`: both the title and the content hold a character that is
        not white space. */
    function IsValid(): (r: bool)
      reads this
      ensures r <==> (exists i :: 0 <= i < |title| && !IsWhitespace(title[i]))
                     && (exists i :: 0 <= i < |content| && !IsWhitespace(content[i]))
    {
      !IsBlank(title) && !IsBlank(content)
    }

    /** `updateTimestamp()` with `Date.now()` given as `now`: only the
        timestamp changes. */
    method UpdateTimestamp(now: int)
      modifies this`timestamp
      ensures timestamp == now
      ensures title == old(title) && content == old(content) && category == old(category)
      ensures IsValid() == old(IsValid())
    {
      timestamp := now;
    }
  }

  /** A note whose title or content is all white space (or empty) is invalid,
      whatever the other field holds. */
  lemma BlankFieldIsInvalid(note: Note)
    requires IsBlank(note.title) || IsBlank(note.content)
    ensures !note.IsValid()
  {
  }
}
