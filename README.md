# NoteApp core, modelled in Dafny

A model of the sequential core of a small note-taking app and proofs about it:

- **Note persistence** (`Storage`): `saveNotes`, `loadNotes` and `clearAllNotes`
  keep the whole note list as one JSON blob under the key `@NoteApp:notes` in
  the device key-value store. Save and clear pass store failures on to the
  caller; load swallows them and falls back to `[]`.
- **The notes screen** (`NotesScreen`): delete by id, prepend on add, replace
  by id on edit, the mount-time load and the autosave that a ready flag holds
  back until the load has finished. This screen uses the legacy record
  (numeric id, `createdAt`/`updatedAt`, category `Teologia | Filosofia`) and
  its own key `notes`.
- **Statistics** (`StatisticsScreen`): total, per-category counts built in a
  dictionary in place, longest and shortest note in one scan, ties to the
  first seen.
- **The domain note** (`DomainNote`): validity (non-blank title and content)
  and the timestamp update.
- **The note form** (`NoteInput`): the submit state machine over the draft
  content and category, and the sync effect on the note to edit.
- **Ids** (`Helpers`): the `"<time>-<suffix>"` format, its injectivity and the
  recovery of the time part.

Supporting modules: `Wrappers` (`Option`), `Types` (the two note records),
`JsString` (the JavaScript string built-ins used: `trim`, `substr`, the first
field of `split`, decimal rendering) and `AsyncStorage` (the key-value store, a
class over `map<string, string>`; each call takes the failure it is to meet,
`None` for success, so the environment's choice of failure is an input).

JSON is the pair of function parameters `encode` (`JSON.stringify`) and
`decode` (`JSON.parse`, returning `None` where it would throw). The clock
(`Date.now()`, `new Date().toISOString()`) and `Math.random().toString(36)` are
parameters. Each store call and each React effect is one atomic step.

## Model

| member | source | states |
|---|---|---|
| `JsString.TrimStart` | src/domain/entities/Note.ts:21 | leading part of `trim`: result is a suffix, everything dropped is white space, result does not start with white space |
| `JsString.TrimEnd` | src/domain/entities/Note.ts:21 | trailing part of `trim`: result is a prefix, everything dropped is white space, result does not end with white space |
| `JsString.Trim` | src/domain/entities/Note.ts:21 | `s.trim()`, the leading then the trailing strip; what it keeps is stated by `JsString.TrimIsSlice` and `JsString.TrimEndsVisible` |
| `JsString.TrimIsSlice` | src/components/NoteInput.tsx:31 | `trim` keeps a slice of the input that only white space surrounds |
| `JsString.TrimEndsVisible` | src/components/NoteInput.tsx:67 | what `trim` keeps neither starts nor ends with white space |
| `JsString.IsBlank` | src/components/NoteInput.tsx:31 | `!s.trim()` holds exactly when every character of `s` is white space |
| `JsString.TrimBlankIff` | src/domain/entities/Note.ts:21 | `s.trim()` is the empty string iff `s` is all white space (both directions) |
| `JsString.Substr` | src/helpers/index.ts:12 | `substr(start, length)`: at most `length` characters, a slice of the input from `start`, as long as the input allows |
| `JsString.SplitFirst` | src/helpers/index.test.ts:17 | `split(sep)[0]`: a prefix free of `sep`, followed in the input by `sep` unless it is the whole input |
| `JsString.SplitFirstOfJoin` | src/helpers/index.ts:12 | the first field of `prefix + sep + rest` is `prefix` when `prefix` holds no `sep` |
| `JsString.Decimal` | src/helpers/index.ts:12 | `${n}` is a non-empty digit string with no leading zero unless `n` is 0 |
| `JsString.ParseDecimal` | src/helpers/index.test.ts:20 | `Number` of a digit string is positive iff some digit is not zero |
| `JsString.ParseDecimalOfDecimal` | src/helpers/index.test.ts:17-20 | `Number` of the decimal rendering gives the number back |
| `JsString.DecimalInjective` | src/helpers/index.ts:12 | different numbers render differently |
| `Helpers.FormatId` | src/helpers/index.ts:12 | the id is the decimal time, a dash at the position after it, then the suffix |
| `Helpers.GenerateUniqueId` | src/helpers/index.ts:10-13 | the id is a non-empty string |
| `Helpers.SuffixShape` | src/helpers/index.ts:12 | the random part is `substr(2, 9)` of the base-36 text, at most 9 characters, dash-free when that text is |
| `Helpers.TimePartRoundTrip` | src/helpers/index.test.ts:15-21 | the part before the first dash is the decimal time, reads back as the clock value, positive when the clock is |
| `Helpers.FormatIdInjective` | src/helpers/index.ts:12 | equal ids come from equal (time, suffix) pairs |
| `Helpers.DistinctTimesGiveDistinctIds` | src/helpers/index.test.ts:6-10 | ids made at different clock readings differ, whatever the random parts |
| `AsyncStorage.KeyValueStore.SetItem` | src/storage/index.ts:18 | `setItem`: on success the key maps to the value and all other keys are untouched; on failure the error comes back and nothing changes |
| `AsyncStorage.KeyValueStore.GetItem` | src/storage/index.ts:36 | `getItem`: the stored value, `null` when the key is absent, or the read failure |
| `AsyncStorage.KeyValueStore.RemoveItem` | src/storage/index.ts:55 | `removeItem`: on success the key is absent and all other keys are untouched; on failure the error comes back and nothing changes |
| `Storage.SaveNotes` | src/storage/index.ts:13-24 | success: the key maps to `encode(notes)`, all other keys untouched; failure: the same error is returned and the store is unchanged |
| `Storage.LoadNotes` | src/storage/index.ts:33-45 | key absent, read failure or parse failure give `[]`; otherwise exactly what `decode` yields, unvalidated |
| `Storage.ClearAllNotes` | src/storage/index.ts:53-60 | success: the key is removed, all other keys untouched; failure: the same error is returned and the store is unchanged |
| `Storage.SaveThenLoad` | src/storage/index.test.ts:55-62 | load after a successful save returns the saved list when `decode(encode(ns)) == Some(ns)`; a failed save leaves the store unchanged |
| `Storage.ClearThenLoad` | src/storage/index.test.ts:81-92 | after a successful clear the key is absent and load returns `[]`; a failed clear leaves the store unchanged |
| `NotesScreen.WithoutId` | src/screens/NotesScreen.tsx:23-24 | no kept note has the id, and the list does not grow |
| `NotesScreen.WithoutIdMembers` | src/screens/NotesScreen.tsx:24 | a note is kept iff it was in the list with a different id |
| `NotesScreen.WithoutIdAppend` | src/screens/NotesScreen.tsx:24 | filtering distributes over concatenation (kept notes stay in order) |
| `NotesScreen.WithoutIdOccurrences` | src/screens/NotesScreen.tsx:24 | every note of a different id is kept as often as it occurs, none of the id |
| `NotesScreen.WithoutAbsentId` | src/screens/NotesScreen.tsx:24 | deleting an id the list does not hold changes nothing |
| `NotesScreen.WithAdded` | src/screens/NotesScreen.tsx:28-29 | the new note comes first, followed by the old list in order |
| `NotesScreen.DeleteAfterAdd` | src/screens/NotesScreen.tsx:23-30 | deleting by the id just added equals deleting it from the old list, and restores the old list when the id was new |
| `NotesScreen.ReplaceById` | src/screens/NotesScreen.tsx:33-34 | same length; each position holds the new note where the old id matched and the old note elsewhere |
| `NotesScreen.ReplaceKeepsIds` | src/screens/NotesScreen.tsx:34 | position by position, edit keeps the ids |
| `NotesScreen.ReplaceAbsentId` | src/screens/NotesScreen.tsx:34 | editing with an id not in the list leaves the list unchanged |
| `NotesScreen.ReplaceIdempotent` | src/screens/NotesScreen.tsx:34 | editing twice with the same note is editing once |
| `NotesScreen.NotesScreenState.constructor` | src/screens/NotesScreen.tsx:18-20 | the screen starts with no notes, nothing being edited, not ready |
| `NotesScreen.NotesScreenState.HandleDeleteNote` | src/screens/NotesScreen.tsx:23-25 | the list becomes the filtered list, other state untouched |
| `NotesScreen.NotesScreenState.HandleAddNote` | src/screens/NotesScreen.tsx:28-30 | the list becomes the note prepended to the old list |
| `NotesScreen.NotesScreenState.HandleEditNote` | src/screens/NotesScreen.tsx:33-36 | the list becomes the replaced list and the note being edited is cleared |
| `NotesScreen.NotesScreenState.LoadEffect` | src/screens/NotesScreen.tsx:39-53 | ready afterwards in every case; the list is the decoded value iff the read succeeded, the text is present and non-empty and parses; otherwise unchanged |
| `NotesScreen.NotesScreenState.SaveEffect` | src/screens/NotesScreen.tsx:56-66 | no write before ready; once ready a write of `encode(notes)` under `notes`, a failed write swallowed, the list never touched |
| `NotesScreen.NotesScreenState.Mount` | src/screens/NotesScreen.tsx:38-66 | the save before the load writes nothing; afterwards the store holds the encoding of the list as the load left it: the loaded notes, or `[]` when the read fails, nothing is stored or the text does not parse |
| `NotesScreen.NotesScreenState.MountAfterFailedRead` | src/screens/NotesScreen.tsx:40-60 | a failed read at mount still makes the screen ready, and the following autosave replaces the stored text with the encoding of `[]` |
| `StatisticsScreen.CountCategoryPositive` | src/screens/StatisticsScreen.tsx:53-56 | a category has a positive count iff some note has it |
| `StatisticsScreen.SumValuesRemove` | src/screens/StatisticsScreen.tsx:53-56 | the sum of the counts can be taken with any key first |
| `StatisticsScreen.SumValuesIncrement` | src/screens/StatisticsScreen.tsx:55 | one more note under a key adds one to the sum of the counts |
| `StatisticsScreen.CountByCategory` | src/screens/StatisticsScreen.tsx:53-56 | the dictionary's keys are exactly the categories present, each mapped to its count, the counts summing to the number of notes |
| `StatisticsScreen.LongestAndShortest` | src/screens/StatisticsScreen.tsx:60-71 | on a non-empty list, the picks are the first note of greatest and the first note of least content length |
| `StatisticsScreen.CalculateStatistics` | src/screens/StatisticsScreen.tsx:48-79 | total is the length; the dictionary's keys are exactly the categories present, each with its count, the counts summing to the length; longest and shortest are absent iff there are no notes, else the first note of greatest (least) content length |
| `DomainNote.Note.constructor` | src/domain/entities/Note.ts:9-15 | the fields are the arguments; the id is a constant |
| `DomainNote.Note.IsValid` | src/domain/entities/Note.ts:20-22 | valid iff both title and content hold a non-white-space character |
| `DomainNote.Note.UpdateTimestamp` | src/domain/entities/Note.ts:27-29 | the timestamp becomes the clock reading; title, content, category and validity unchanged (the id is a constant) |
| `DomainNote.BlankFieldIsInvalid` | src/domain/entities/Note.ts:21 | a note with a blank title or blank content is invalid |
| `NoteInput.NoteForm.constructor` | src/components/NoteInput.tsx:14-27 | an empty draft in `Teologia`, then the sync effect for the initial note to edit |
| `NoteInput.NoteForm.SyncNoteToEdit` | src/components/NoteInput.tsx:19-27 | a note to edit is copied into the draft; none resets it to `""` and `Teologia` |
| `NoteInput.NoteForm.SetNoteToEdit` | src/components/NoteInput.tsx:19-27 | a new note-to-edit prop followed by its sync effect |
| `NoteInput.NoteForm.ChangeText` | src/components/NoteInput.tsx:61 | typing sets the draft content |
| `NoteInput.NoteForm.SelectCategory` | src/components/NoteInput.tsx:56 | picking a category sets the draft category |
| `NoteInput.NoteForm.SubmitDisabled` | src/components/NoteInput.tsx:67 | the button is disabled iff the draft is all white space |
| `NoteInput.NoteForm.HandleSubmit` | src/components/NoteInput.tsx:30-52 | blank draft: nothing passed on, draft kept; edit branch only with both a note to edit and an edit handler, keeping id and `createdAt`; otherwise a new note with id `now`; after a non-blank submit the draft is `""` in `Teologia` |

## Left out

- `exportNotes` and `importNotes`: the storage tests call them, but the storage file does not define them, so there is nothing to model.
- The JSON text format: `JSON.stringify` and `JSON.parse` are the parameters `encode` and `decode`; no grammar is modelled, and the round trip is assumed per call (`decode(encode(ns)) == Some(ns)`), not proved.
- `JSON.parse` yielding a value that is not a note list (`null`, an object): `decode` has the note-list type, so the model cannot express what a screen does with such a value.
- Asynchrony: promises, effect scheduling and the React render cycle are not modelled; each store call and each effect is one atomic step, and `NotesScreen.NotesScreenState.Mount` fixes one order of the two mount-time effects.
- `console.error` logging on the error paths: output only, left out.
- Actual uniqueness of generated ids and the formatting of `Math.random().toString(36)`: randomness and float formatting; the base-36 text is an input.
- `Helpers.GenerateUniqueId`: takes the clock as a natural number (milliseconds since 1970); a clock set before 1970 would render a leading minus sign and is not modelled.
- `NoteInput.NoteForm.HandleSubmit`: `new Date().toISOString()` is not modelled; its readings are inputs, so the model does not relate `createdAt`/`updatedAt` to `now`.
- `StatisticsScreen.CalculateStatistics`: content length is the number of Unicode characters, not of UTF-16 code units as in JavaScript; the two differ for characters outside the Basic Multilingual Plane.
- `StatisticsScreen.CalculateStatistics`: `categoryCount` is modelled as a plain dictionary; JavaScript object keys inherited from `Object.prototype` (`__proto__`, `constructor`, …) behave differently as categories and are not modelled.
- The statistics screen's `fetchNotes` and the React state setters it feeds: load plumbing; the computed values are returned instead.
- `NoteInput.NoteForm.SetNoteToEdit`: React re-runs the sync effect only when the `noteToEdit` prop changes by identity; prop identity is not modelled, so the method stands for a changed prop only and re-syncs (resetting the draft) on every call.
- The notes screen's edit button (`setEditingNote(item)`), rendering and the modal: presentation.
- The text-improvement network client, dates for display, all rendering, styling and modal components: UI, network and formatting outside the core.
- The notes-screen test file: it expects texts the screen does not render, so it describes another version of the screen.
