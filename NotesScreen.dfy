/**
  The notes screen: the in-memory list operations behind delete, add and
  edit, and the page state (the list, the note being edited, the ready flag)
  with its load effect and its ready-gated autosave effect. This screen uses
  the legacy note record and its own store key.
 */
module NotesScreen {
  import opened Wrappers
  import opened Types
  import opened AsyncStorage

  /** The key this screen reads and writes. */
  const NotesKey: string := "notes"

  /** `notes.filter(note => note.id !== id)`. */
  function WithoutId(notes: seq<LegacyNote>, id: int): (r: seq<LegacyNote>)
    ensures |r| <= |notes|
    ensures forall i :: 0 <= i < |r| ==> r[i].id != id
  {
    if notes == [] then []
    else
      assert notes == [notes[0]] + notes[1..];
      (if notes[0].id == id then [] else [notes[0]]) + WithoutId(notes[1..], id)
  }

  /** Filtering distributes over concatenation, so the kept notes stay in
      their original order. */
  lemma {:induction false} WithoutIdAppend(a: seq<LegacyNote>, b: seq<LegacyNote>, id: int)
    ensures WithoutId(a + b, id) == WithoutId(a, id) + WithoutId(b, id)
  {
    if a != [] {
      var head := if a[0].id == id then [] else [a[0]];
      assert (a + b)[0] == a[0] && (a + b)[1..] == a[1..] + b;
      calc {
        WithoutId(a + b, id);
        head + WithoutId(a[1..] + b, id);
        { WithoutIdAppend(a[1..], b, id); }
        head + (WithoutId(a[1..], id) + WithoutId(b, id));
        (head + WithoutId(a[1..], id)) + WithoutId(b, id);
        WithoutId(a, id) + WithoutId(b, id);
      }
    } else {
      assert a + b == b;
    }
  }

  /** Each note whose id differs is kept as many times as it occurs; none of
      the given id is kept. */
  lemma {:induction false} WithoutIdOccurrences(notes: seq<LegacyNote>, id: int, n: LegacyNote)
    ensures multiset(WithoutId(notes, id))[n] == if n.id == id then 0 else multiset(notes)[n]
  {
    if notes != [] {
      var head := if notes[0].id == id then [] else [notes[0]];
      var rest := WithoutId(notes[1..], id);
      assert WithoutId(notes, id) == head + rest;
      assert multiset(head + rest) == multiset(head) + multiset(rest);
      assert notes == [notes[0]] + notes[1..];
      assert multiset(notes) == multiset([notes[0]]) + multiset(notes[1..]);
      WithoutIdOccurrences(notes[1..], id, n);
    }
  }

  /** A note is kept exactly when it was in the list with a different id. */
  lemma {:induction false} WithoutIdMembers(notes: seq<LegacyNote>, id: int, n: LegacyNote)
    ensures n in WithoutId(notes, id) <==> n in notes && n.id != id
  {
    WithoutIdOccurrences(notes, id, n);
    assert n in WithoutId(notes, id) <==> multiset(WithoutId(notes, id))[n] > 0;
    assert n in notes <==> multiset(notes)[n] > 0;
  }

  /** A list with no note of the given id passes through unchanged. */
  lemma {:induction false} WithoutAbsentId(notes: seq<LegacyNote>, id: int)
    requires forall i :: 0 <= i < |notes| ==> notes[i].id != id
    ensures WithoutId(notes, id) == notes
  {
    if notes != [] {
      WithoutAbsentId(notes[1..], id);
    }
  }

  /** `[note, ...notes]`. */
  function WithAdded(notes: seq<LegacyNote>, note: LegacyNote): (r: seq<LegacyNote>)
    ensures |r| == |notes| + 1 && r[0] == note && r[1..] == notes
  {
    [note] + notes
  }

  /** Deleting by the id of a note just added removes it together with every
      older note of that id, and leaves the other notes as they were; when the
      id was new, the list is back to what it was before the add. */
  lemma DeleteAfterAdd(notes: seq<LegacyNote>, note: LegacyNote)
    ensures WithoutId(WithAdded(notes, note), note.id) == WithoutId(notes, note.id)
    ensures (forall i :: 0 <= i < |notes| ==> notes[i].id != note.id) ==>
              WithoutId(WithAdded(notes, note), note.id) == notes
  {
    WithoutIdAppend([note], notes, note.id);
    if forall i :: 0 <= i < |notes| ==> notes[i].id != note.id {
      WithoutAbsentId(notes, note.id);
    }
  }

  /** `notes.map(n => (n.id === note.id ? note : n))`. */
  function ReplaceById(notes: seq<LegacyNote>, note: LegacyNote): (r: seq<LegacyNote>)
    ensures |r| == |notes|
    ensures forall i :: 0 <= i < |r| ==> r[i] == (if notes[i].id == note.id then note else notes[i])
  {
    if notes == [] then []
    else [if notes[0].id == note.id then note else notes[0]] + ReplaceById(notes[1..], note)
  }

  /** Editing never moves, adds or drops an id: position by position the ids
      are those of the old list. */
  lemma ReplaceKeepsIds(notes: seq<LegacyNote>, note: LegacyNote)
    ensures forall i :: 0 <= i < |notes| ==> ReplaceById(notes, note)[i].id == notes[i].id
  {
  }

  /** Editing with an id the list does not hold changes nothing. */
  lemma ReplaceAbsentId(notes: seq<LegacyNote>, note: LegacyNote)
    requires forall i :: 0 <= i < |notes| ==> notes[i].id != note.id
    ensures ReplaceById(notes, note) == notes
  {
  }

  /** Editing twice with the same note is editing once. */
  lemma ReplaceIdempotent(notes: seq<LegacyNote>, note: LegacyNote)
    ensures ReplaceById(ReplaceById(notes, note), note) == ReplaceById(notes, note)
  {
  }

  /** The screen's state. */
  class NotesScreenState {
    var notes: seq<LegacyNote>
    var editingNote: Option<LegacyNote>
    var isReady: bool

    /** `useState([])`, `useState(null)`, `useState(false)`. */
    constructor ()
      ensures notes == [] && editingNote == None && !isReady
    {
      notes := [];
      editingNote := None;
      isReady := false;
    }

    /** `handleDeleteNote(id)`. */
    method HandleDeleteNote(id: int)
      modifies this`notes
      ensures notes == WithoutId(old(notes), id)
    {
      notes := WithoutId(notes, id);
    }

    /** `handleAddNote(note)`. */
    method HandleAddNote(note: LegacyNote)
      modifies this`notes
      ensures notes == WithAdded(old(notes), note)
    {
      notes := WithAdded(notes, note);
    }

    /** `handleEditNote(note)`: the list is edited and the form leaves edit mode. */
    method HandleEditNote(note: LegacyNote)
      modifies this`notes, this`editingNote
      ensures notes == ReplaceById(old(notes), note)
      ensures editingNote == None
    {
      notes := ReplaceById(notes, note);
      editingNote := None;
    }

    /** The mount-time load: the list is replaced only by the decoding of a
        stored, non-empty text; a missing key, an empty text, a failed read
        and text that does not parse leave it as it was. In every case the
        screen becomes ready. */
    method LoadEffect(storage: KeyValueStore, decode: string -> Option<seq<LegacyNote>>,
                      fault: Option<StoreError>)
      modifies this`notes, this`isReady
      ensures isReady
      ensures fault.None? && NotesKey in storage.items && storage.items[NotesKey] != ""
              && decode(storage.items[NotesKey]).Some?
              ==> notes == decode(storage.items[NotesKey]).value
      ensures fault.Some? || NotesKey !in storage.items || storage.items[NotesKey] == ""
              || decode(storage.items[NotesKey]).None?
              ==> notes == old(notes)
    {
      var storedNotes := storage.GetItem(NotesKey, fault);
      if storedNotes.Read? && storedNotes.value.Some? && storedNotes.value.value != "" {
        var parsed := decode(storedNotes.value.value);
        if parsed.Some? {
          notes := parsed.value;
        }
      }
      isReady := true;
    }

    /** The autosave effect: nothing is written before the screen is ready;
        once it is, the encoded list is written under the screen's key. A
        failed write is swallowed and the list is never touched. */
    method SaveEffect(storage: KeyValueStore, encode: seq<LegacyNote> -> string,
                      fault: Option<StoreError>)
      modifies storage
      ensures !isReady ==> storage.items == old(storage.items)
      ensures isReady && fault.None? ==> storage.items == old(storage.items)[NotesKey := encode(notes)]
      ensures isReady && fault.Some? ==> storage.items == old(storage.items)
    {
      if !isReady {
        return;
      }
      var _ := storage.SetItem(NotesKey, encode(notes), fault);
    }

    /** Mounting the screen: the autosave effect runs first and, the screen
        not being ready, writes nothing; the load completes and the autosave
        runs again, so the store then holds the encoding of the list as the
        load left it, which is `[]` when the read fails or the text does not
        parse. */
    method Mount(storage: KeyValueStore, encode: seq<LegacyNote> -> string,
                 decode: string -> Option<seq<LegacyNote>>,
                 readFault: Option<StoreError>, writeFault: Option<StoreError>)
      requires notes == [] && !isReady
      modifies this`notes, this`isReady, storage
      ensures isReady
      ensures readFault.None? && NotesKey in old(storage.items) && old(storage.items)[NotesKey] != ""
              && decode(old(storage.items)[NotesKey]).Some?
              ==> notes == decode(old(storage.items)[NotesKey]).value
      ensures !(readFault.None? && NotesKey in old(storage.items) && old(storage.items)[NotesKey] != ""
                && decode(old(storage.items)[NotesKey]).Some?)
              ==> notes == []
      ensures writeFault.None? ==> storage.items == old(storage.items)[NotesKey := encode(notes)]
      ensures writeFault.Some? ==> storage.items == old(storage.items)
    {
      SaveEffect(storage, encode, writeFault);
      LoadEffect(storage, decode, readFault);
      SaveEffect(storage, encode, writeFault);
    }

    /** A failed read at mount is not told apart from an empty store: the
        screen still becomes ready, and the autosave that follows replaces
        whatever text was stored with the encoding of the empty list. */
    method MountAfterFailedRead(storage: KeyValueStore, encode: seq<LegacyNote> -> string,
                                decode: string -> Option<seq<LegacyNote>>, readError: StoreError)
      requires notes == [] && !isReady
      modifies this`notes, this`isReady, storage
      ensures isReady && notes == []
      ensures storage.items == old(storage.items)[NotesKey := encode([])]
    {
      Mount(storage, encode, decode, Some(readError), None);
    }
  }
}
