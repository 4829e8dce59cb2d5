/**
  Note persistence: the whole note list is one JSON blob under one fixed key.
  JSON is the pair `encode` (`JSON.stringify`, total on note lists) and
  `decode` (`JSON.parse`, which may throw: `None`). Saving and clearing pass
  store failures on to the caller; loading swallows every failure and yields
  the empty list.
 */
module Storage {
  import opened Wrappers
  import opened Types
  import opened AsyncStorage

  /** The key every note-list operation reads and writes. */
  const StorageKey: string := "@NoteApp:notes"

  /** `saveNotes(notes)`: the store maps the key to the encoded list and every
      other key is untouched; a failed write reaches the caller as the same
      error, with the store unchanged. */
  method SaveNotes(storage: KeyValueStore, notes: seq<Note>, encode: seq<Note> -> string,
                   fault: Option<StoreError>) returns (o: Outcome)
    modifies storage
    ensures fault.None? ==> o == Pass && storage.items == old(storage.items)[StorageKey := encode(notes)]
    ensures fault.Some? ==> o == Fail(fault.value) && storage.items == old(storage.items)
  {
    var jsonValue := encode(notes);
    o := storage.SetItem(StorageKey, jsonValue, fault);
  }

  /** `loadNotes()`: never fails. A missing key, a failed read and text that
      does not parse all give the empty list; otherwise whatever `decode`
      yields is returned, unvalidated. */
  method LoadNotes(storage: KeyValueStore, decode: string -> Option<seq<Note>>,
                   fault: Option<StoreError>) returns (notes: seq<Note>)
    ensures fault.Some? ==> notes == []
    ensures StorageKey !in storage.items ==> notes == []
    ensures fault.None? && StorageKey in storage.items && decode(storage.items[StorageKey]).Some? ==>
              notes == decode(storage.items[StorageKey]).value
    ensures StorageKey in storage.items && decode(storage.items[StorageKey]).None? ==> notes == []
  {
    var r := storage.GetItem(StorageKey, fault);
    match r
    case ReadFailed(_) =>
      notes := [];
    case Read(None) =>
      notes := [];
    case Read(Some(jsonValue)) =>
      match decode(jsonValue)
      case None => notes := [];
      case Some(parsed) => notes := parsed;
  }

  /** `clearAllNotes()`: the key is gone and every other key is untouched; a
      failed removal reaches the caller as the same error, with the store
      unchanged. */
  method ClearAllNotes(storage: KeyValueStore, fault: Option<StoreError>) returns (o: Outcome)
    modifies storage
    ensures fault.None? ==> o == Pass && storage.items == old(storage.items) - {StorageKey}
    ensures fault.Some? ==> o == Fail(fault.value) && storage.items == old(storage.items)
  {
    o := storage.RemoveItem(StorageKey, fault);
  }

  /** Round trip: a successful save followed by a successful load gives back
      the saved list, provided the codec round-trips on it. */
  method SaveThenLoad(storage: KeyValueStore, notes: seq<Note>, encode: seq<Note> -> string,
                      decode: string -> Option<seq<Note>>,
                      writeFault: Option<StoreError>, readFault: Option<StoreError>)
    returns (saved: Outcome, loaded: seq<Note>)
    requires decode(encode(notes)) == Some(notes)
    modifies storage
    ensures writeFault.None? && readFault.None? ==> saved == Pass && loaded == notes
    ensures writeFault.Some? ==> saved == Fail(writeFault.value) && storage.items == old(storage.items)
  {
    saved := SaveNotes(storage, notes, encode, writeFault);
    loaded := LoadNotes(storage, decode, readFault);
  }

  /** After a successful clear the key is absent, so a following load gives
      the empty list whether or not its read succeeds. */
  method ClearThenLoad(storage: KeyValueStore, decode: string -> Option<seq<Note>>,
                       removeFault: Option<StoreError>, readFault: Option<StoreError>)
    returns (cleared: Outcome, loaded: seq<Note>)
    modifies storage
    ensures removeFault.None? ==> cleared == Pass && StorageKey !in storage.items && loaded == []
    ensures removeFault.Some? ==> cleared == Fail(removeFault.value) && storage.items == old(storage.items)
  {
    cleared := ClearAllNotes(storage, removeFault);
    loaded := LoadNotes(storage, decode, readFault);
  }
}
