# Sticky notes: the reducer and the note step rules

This project models the logic of a browser sticky-notes widget. The widget keeps a list of draggable, resizable rich-text notes in memory and in a local table. Two parts of it are modelled:

- **The notes reducer** (`src/hooks/index.ts`). It takes the note list and an action (ADD, UPDATE, DELETE or OPEN) and returns a new list. It throws on any other action type.
- **The note step rules in `src/components/Notes.tsx`**:
  - the `useResizable` drag handler, which either moves a note or resizes it (refusing sizes below 220×200), plus the `from` and `bounds` options it gives the gesture library;
  - the two debounced rules of `ResizableNote` that write a note's geometry or content back to the table and the reducer only when it has changed;
  - the wrapping re-render counters of `StackNote` and `ResizableNote`;
  - `randomColors`;
  - the record the "add" buttons create.

Files and modules:

- `note_model.dfy` (`NoteModel`): the `Note` record. Its optional `id` is an `Option<int>`. Also the seven colour tags, and `Option`/`Result`.
- `notes_reducer.dfy` (`NotesReducer`): the reducer on typed actions (`Reduce`) and on a run-time type string (`ReduceUntyped`), with lemmas about length, order, membership and idempotence.
- `resizable.dfy` (`Resizable`):
  - the geometry record `Geom`;
  - the drag step `DragStep`, the starting offset `DragFrom` and the bounds `DragBounds`;
  - lemmas: the 220×200 minimum and staying inside the viewport both hold across any sequence of drags;
  - the `Spring` class, whose `Drag` method updates the spring state in place.
- `colors.dfy` (`Colors`): `randomColors`. The value of `Math.random()` is a parameter.
- `components.dfy` (`Components`):
  - the counter updater and lemmas about its cycle;
  - the `StackNoteState` and `ResizableNoteState` classes. Their counters, the in-place note mutation, the `updateNotes` log and the reducer list are fields;
  - the two sync methods, and a client method that runs one drag and, only when the drag changed the spring, the spring's change handler and the geometry sync.

Coordinates and sizes are unbounded integers. `dispatch !== null` is a boolean field of the component state. A call to `updateNotes` is modelled as appending the note to the `saved` sequence.

## Model

| member | source | states |
|---|---|---|
| NotesReducer.TypeName | src/hooks/index.ts:4-9 | each enum member carries one of the four strings "ADD", "UPDATE", "DELETE", "OPEN" (ParseTypeName shows that distinct members carry distinct strings) |
| NotesReducer.ParseType | src/hooks/index.ts:4-9 | a type string is recognised exactly when it is the string value of one of the four enum members, and then it names that member |
| NotesReducer.ParseTypeName | src/hooks/index.ts:4-9 | each enum member's string value is recognised as that member |
| NotesReducer.ReplaceMatching | src/hooks/index.ts:21-27 | the mapped list has the same length, and each position holds the payload when that note's optional id equals the payload's, otherwise the original note |
| NotesReducer.RemoveMatching | src/hooks/index.ts:29 | the filtered list is no longer than the input; its members are members of the input whose id differs from the payload's; every such input note survives |
| NotesReducer.KeptIndices | src/hooks/index.ts:29 | the positions a filter keeps are strictly increasing, in range, and are exactly the positions whose id differs |
| NotesReducer.Reduce | src/hooks/index.ts:16-37 | ADD appends the payload after an unchanged prefix; UPDATE and OPEN keep length and order and replace exactly the matching notes; DELETE keeps only notes with a different id and loses none of them |
| NotesReducer.ReduceUntyped | src/hooks/index.ts:16-41 | the reducer succeeds exactly for "ADD", "UPDATE", "DELETE" and "OPEN", and then it agrees with the typed reducer; any other type gives the error "Unknown action: " followed by the type |
| NotesReducer.OpenIsUpdate | src/hooks/index.ts:20-37 | OPEN gives the same list as UPDATE for every list and payload |
| NotesReducer.UpdateWithoutMatchIsIdentity | src/hooks/index.ts:21-27 | an UPDATE or OPEN whose payload id matches no note returns the list unchanged |
| NotesReducer.RemoveWithoutMatchIsIdentity | src/hooks/index.ts:29 | a filter on an id no note carries returns the whole list |
| NotesReducer.DeleteWithoutMatchIsIdentity | src/hooks/index.ts:28-29 | a DELETE whose payload id matches no note returns the list unchanged |
| NotesReducer.DeleteKeepsOrder | src/hooks/index.ts:29 | after DELETE, the j-th remaining note is the note at the j-th kept position of the input, so the survivors keep their original order |
| NotesReducer.DeleteRemovesId | src/hooks/index.ts:28-29 | after DELETE no note carries the payload's id |
| NotesReducer.UpdateIdempotent | src/hooks/index.ts:20-27 | applying the same UPDATE (or OPEN) twice equals applying it once |
| NotesReducer.DeleteIdempotent | src/hooks/index.ts:28-29 | applying the same DELETE twice equals applying it once |
| NotesReducer.IdlessPayloadMatchesIdlessNotes | src/hooks/index.ts:20-29 | a payload without an id replaces every id-less note on UPDATE, and DELETE with it leaves only notes that have an id |
| Resizable.DragStep | src/components/Notes.tsx:474-489 | a resize never changes the position; below 220 wide or 200 high it changes nothing; otherwise the size becomes the offset; a move sets the position to the offset and keeps the size |
| Resizable.DragFrom | src/components/Notes.tsx:494-501 | a drag on the resize handle starts from the current width and height; any other drag starts from the current position |
| Resizable.DragFromIsNoop | src/components/Notes.tsx:494-501 | a drag whose offset is still the `from` offset (current size when resizing, current position when moving) leaves the geometry unchanged |
| Resizable.DragBounds | src/components/Notes.tsx:502-521 | for a move, an offset is within bounds exactly when the note at that position lies inside the viewport; for a resize, a size is within bounds exactly when each side is at least 50 and the right and bottom edges stay inside the viewport |
| Resizable.DragKeepsMinSize | src/components/Notes.tsx:477-488 | a note at least 220×200 is still at least 220×200 after any drag step |
| Resizable.DragWithinBoundsStaysInside | src/components/Notes.tsx:474-521 | a drag whose offset lies within the bounds keeps a note inside the viewport |
| Resizable.DragsKeepMinSize | src/components/Notes.tsx:474-489 | after any sequence of drags, a note that started at least 220×200 is still at least 220×200 |
| Resizable.DragsStayInside | src/components/Notes.tsx:474-521 | after any sequence of drags whose offsets each lie within the bounds computed at that step, a note that started inside the viewport is still inside |
| Resizable.Spring.constructor | src/components/Notes.tsx:458-472 | the spring starts at the given position and size (by default 0, 0, 220, 220) |
| Resizable.Spring.Drag | src/components/Notes.tsx:474-489 | the spring's new state is the drag step applied to its old state |
| Colors.RandomIndex | src/components/Notes.tsx:1432 | a draw in [0, 1) gives an index in 0..6 |
| Colors.ColorAt | src/components/Notes.tsx:1423-1439 | an index in 0..6 gives the tag at that position of the list, whose name is the name at that position; any other index gives "neutral" |
| Colors.RandomColor | src/components/Notes.tsx:1422-1440 | for a draw in [0, 1), the tag's name is the list entry at the drawn index |
| Colors.EveryColorReachable | src/components/Notes.tsx:1422-1440 | every one of the seven tags is produced by some draw in [0, 1) |
| Components.NextCount | src/components/Notes.tsx:369-372 | the updater maps a counter in 0..wrap+1 into 1..wrap+1 |
| Components.CountAfterRisesToWrap | src/components/Notes.tsx:369-372 | the first wrap+1 updates from 0 count 1, 2, …, wrap+1 |
| Components.CountAfterPeriodic | src/components/Notes.tsx:618-621 | from the first update on, the counter repeats with period wrap+1 |
| Components.CountAfterInRange | src/components/Notes.tsx:369-372 | after any number n ≥ 1 of updates from 0, the counter is in 1..wrap+1 (1..21 for `StackNote`, 1..51 for `ResizableNote`) |
| Components.WithGeom | src/components/Notes.tsx:599-602 | the note takes the given position and size, and every other field is kept |
| Components.NewNote | src/components/Notes.tsx:216-226 | a new note has no id, empty content, is closed (`open` is false), sits at the origin and is exactly 220×200, which meets the resize minimum |
| Components.SyncedGeometryReachesList | src/components/Notes.tsx:599-604 | after the UPDATE that follows a geometry write, every note in the list with the note's id has the new geometry, and the others are unchanged |
| Components.StackNoteState.constructor | src/components/Notes.tsx:360-361 | the counter starts at 0 and the menu is closed |
| Components.StackNoteState.Hover | src/components/Notes.tsx:368-381 | entering or leaving bumps the counter with wrap 20, keeps it in 1..21, and closes the menu |
| Components.ResizableNoteState.constructor | src/components/Notes.tsx:624-631 | the counter starts at 0 and the spring starts at the note's stored position and size |
| Components.ResizableNoteState.OnChange | src/components/Notes.tsx:617-623 | a spring change bumps the counter with wrap 50, keeps it in 1..51, and touches nothing else |
| Components.ResizableNoteState.SyncGeometry | src/components/Notes.tsx:580-607 | it writes exactly when a dispatcher exists and some coordinate differs from the spring's. A write copies the spring's geometry into the note and keeps its other fields, logs one save and applies UPDATE to the list. Otherwise nothing changes. Afterwards, if a dispatcher exists, the note's geometry equals the spring's |
| Components.ResizableNoteState.SyncContent | src/components/Notes.tsx:571-579 | it writes exactly when a dispatcher exists and the editor HTML differs from the stored content. A write stores the HTML, logs one save and applies UPDATE to the list. Otherwise nothing changes. Afterwards, if a dispatcher exists, the stored content equals the HTML |
| Components.SyncGeometryTwice | src/components/Notes.tsx:580-607 | a second geometry sync right after the first writes nothing; the final note, save log and list are those the first sync leaves |
| Components.SyncContentTwice | src/components/Notes.tsx:571-579 | a second content sync with the same HTML writes nothing; the final note, save log and list are those the first sync leaves |
| Components.DragThenSync | src/components/Notes.tsx:474-623 | a drag sets the spring to the drag step of its old state; only if that changed the spring does the change handler fire, bumping the counter (wrap 50) and running the geometry sync, so a rejected resize leaves counter, note, save log and list unchanged; after a change with a dispatcher the note's geometry is that drag step, saved and dispatched exactly when it differs from the note's old geometry |
| Components.RejectedResizeIsSilent | src/components/Notes.tsx:477-478 | a resize to 100×100 is refused before the spring is set, so the spring, counter, note, save log and list all stay as they were |

## Left out

- Persistence. The local table (`src/lib/db/index.ts`) is not part of this model: its add, update and delete calls, auto-increment ids and swallowed errors. A call to `updateNotes` appears only as an entry in the `saved` log.
- Timing. The 500 ms debounce, `setTimeout`, React effects, context and provider plumbing are all left out. Each debounced callback is modelled as one call that happens after its trigger.
- Aliasing. In the source, the note a `ResizableNote` mutates in place is the same object as the element held in the reducer's list. The model keeps the note as a value in the component state, so a mutation reaches the list only through the UPDATE it dispatches.
- Spring animation. The spring's `onChange`, fired by animation frames, is modelled as an explicit `OnChange` call. The spring's set values are taken to be readable at once.
- Gesture clamping. use-gesture's rubber-banding and its clamping of the offset into `bounds` are library behaviour. `DragsStayInside` takes "every offset lies within its bounds" as a hypothesis instead. It also holds the viewport fixed for the whole sequence, whereas the source reads `window.innerWidth` and `window.innerHeight` again on every bounds call, so the window is taken not to be resized during the drags.
- Numbers. Coordinates and sizes are JavaScript floating-point numbers in the source and integers here.
- Random draw. `Math.random` becomes a real parameter of `RandomColor`.
- Other parts of `src/components/Notes.tsx`:
  - the scroll-sticky header;
  - the search filter, which uses a foreign `stripHtml`;
  - the image crop and paste pipeline (`canvasPreview`, `dataUrlToFile`), which uses float scaling and the canvas;
  - styling variant tables, menus, floating-ui positioning and editor commands;
  - the open, close and delete handlers, which build payloads for the reducer and the table, and the colour-palette handlers, which only dispatch UPDATE to the reducer and never write to the table.
- Storybook demo components.
