# murder-mystery-note, modelled in Dafny

murder-mystery-note is a browser notebook for murder-mystery games. The
player writes short notes (メモ) and keeps four tag registries:
characters and places (each with a name and a colour), and time and date
labels (plain strings). Tags are dragged onto notes. A timeline groups
the timed notes by date and then by place and character, with
collapsible sections. A PDF panel keeps the open scenario documents.

This project models the state and the handlers behind those features:

- the note store and its tag operations (`Notes`);
- the tag registries (`TagStore`);
- the rename and delete cascades from a registry into the notes (`Cascade`);
- the per-kind tag editors and their key handling (`TagEditing`, `Keyboard`);
- the combined tag manager (`TagManagerPanel`);
- the timeline groupings and the stored expand/collapse flags (`Grouping`, `Timeline`, `TimelineState`);
- the drag-and-drop hook (`DragDrop`);
- the PDF store (`PdfStore`);
- the memo panel (`MemoPanel`);
- the older single-component application that holds all of this state itself (`LegacyApp`).

Each store or component whose fields are updated in place is a class. Its
methods state its whole new state in terms of pure functions. What the
application promises is proved about those functions as lemmas.

Conventions:

- JavaScript `null`/`undefined` is `None`.
- A string is "blank" when `trim()` would leave nothing. `Text.IsJsWhitespace` lists the ECMAScript white-space and line-terminator characters.
- The element-wise `.map`/`.filter` passes that handlers run over the notes and the character and place registries are done by the loop methods `Seqs.ComputeMap` and `Seqs.ComputeFilter`. These are proved equal to the functions `Seqs.Map` and `Seqs.Filter`. The index-based passes over the time and date labels are the functions `TagStore.ReplaceAt` and `TagStore.RemoveAt`. The derived `timelineNotes` filter is the function `Seqs.Filter`.
- The `reduce` and `forEach` passes that build records of buckets are done by `Grouping.ComputeGroupBy`, or by loops that call it. They start from a plain `{}` record, so a key that names a member `Object.prototype` already has (such as `constructor` or `toString`) makes `acc[key].push` throw. The methods model that throw as `ok == false`. When `ok` holds, the result is proved equal to `Grouping.GroupBy`. See "## Findings".
- Ids, timestamps and object URLs are parameters.

## Model

| member | source | states |
|---|---|---|
| Notes.SetField | src/store/note-store.ts:81-93 | writing field `k` sets it to the value and leaves the other three reference fields, the id, content and timestamp alone |
| Notes.AddedSpec | src/store/note-store.ts:54-71 | blank content leaves the list unchanged; otherwise exactly one note is appended, holding the untrimmed content, the given id and four null references, after an unchanged prefix |
| Notes.DeleteNoteSpec | src/store/note-store.ts:74-78 | no note with the id survives; every other note keeps its multiplicity; deleting again changes nothing |
| Notes.DeleteUnknownIsNoop | src/store/note-store.ts:74-78 | deleting an id no note has returns the list unchanged |
| Notes.DeleteKeepsOrder | src/store/note-store.ts:76 | deletion distributes over concatenation, so the survivors keep their relative order |
| Notes.WithTagShape | src/store/note-store.ts:83-91 | setting a tag keeps length, order, ids, content and timestamps; only field `k` of notes with the id changes, and it is overwritten |
| Notes.DetachIdempotent | src/store/note-store.ts:96-107 | removing the same tag from a note twice is the same as removing it once |
| Notes.WithContentSpec | src/feature/memo/Memo.tsx:53-62 | committing an edit replaces only the content of the notes with that id; length, order and all references are kept |
| Notes.NoteStore.SetNotes | src/store/note-store.ts:49-51 | the list is replaced wholesale |
| Notes.NoteStore.AddNote | src/store/note-store.ts:54-71 | a blank text leaves `notes` as it was; otherwise exactly the new note is appended |
| Notes.NoteStore.DeleteNote | src/store/note-store.ts:74-78 | the new list is the filter of the old one; it holds only old notes with other ids and keeps every such note |
| Notes.NoteStore.AddTagToNote | src/store/note-store.ts:81-93 | field `k` of the matching notes becomes the value; length and everything else is unchanged |
| Notes.NoteStore.RemoveTagFromNote | src/store/note-store.ts:96-107 | field `k` of the matching notes becomes null; length and everything else is unchanged |
| TagStore.ColorOf | src/store/character-store.ts:40-44 | an absent name gives `#000000`; a present name gives the colour of the first entry with exactly that name |
| TagStore.NamedTagStore.GetColor | src/store/place-store.ts:40-44 | the place lookup is the same first-match lookup and reads nothing but the list |
| TagStore.NamedTagStore.SetTags | src/store/character-store.ts:35-37 | the registry is replaced wholesale (likewise `setPlaces`) |
| TagStore.LabelStore.SetLabels | src/store/time-store.ts:8-11 | the time (and date) labels are replaced wholesale |
| TagStore.UpdatedSpec | src/feature/tag-manager/character-tag-manager/hooks.ts:36-38 | renaming keeps length and order; entries with the id get the new name and colour and keep their id; others are unchanged |
| TagStore.WithoutTagSpec | src/feature/tag-manager/character-tag-manager/hooks.ts:50 | after deletion no entry has the id, every other entry survives, and the order is kept |
| TagStore.ReplaceAt | src/feature/tag-manager/time-tag-manager/hooks.ts:32 | only index `i` is replaced; length and the other labels are kept; an index out of range changes nothing |
| TagStore.RemoveAt | src/feature/tag-manager/time-tag-manager/hooks.ts:46 | an index in range removes exactly that label, and later labels shift down by one; an index out of range changes nothing |
| TagStore.AppendedTagKeeps | src/feature/tag-manager/character-tag-manager/CharacterTagManager.tsx:53-62 | an add keeps ids unique exactly when the name is blank or the id it is handed is fresh, and never stores an empty name |
| TagStore.UpdatedKeeps | src/feature/tag-manager/character-tag-manager/hooks.ts:30-38 | a save keeps ids unique, and keeps every name non-empty because blank text is refused |
| TagStore.FilterKeepsUniqueIds | src/feature/tag-manager/character-tag-manager/hooks.ts:50 | any filter of a registry with unique ids has unique ids |
| TagStore.WithoutTagKeeps | src/feature/tag-manager/character-tag-manager/hooks.ts:49-50 | a delete keeps ids unique and names non-empty |
| TagStore.LabelsStayNonEmpty | src/feature/tag-manager/time-tag-manager/hooks.ts:26-46 | adding, saving non-blank text and deleting each keep every time (or date) label non-empty |
| TagStore.AppendedLabelSpec | src/feature/tag-manager/time-tag-manager/TimeTagManger.tsx:40-44 | blank or already present text (exact match) is refused; otherwise the text is appended at the end, unsorted; distinct labels stay distinct |
| Cascade.RenameCascade | src/feature/tag-manager/character-tag-manager/hooks.ts:40-43 | notes holding the old name in field `k` hold the new text; other notes are unchanged; the other fields, ids, content and timestamps are kept |
| Cascade.ClearCascade | src/feature/tag-manager/character-tag-manager/hooks.ts:52-60 | field `k` of every note holding the removed name becomes null, so afterwards no note holds it; an unknown id (undefined name) touches no note; the other fields, ids, content and timestamps are kept |
| Cascade.SaveUnknownNamedIsNoop | src/feature/tag-manager/character-tag-manager/hooks.ts:33-43 | saving an id absent from the registry changes no entry and, because the old name is `''`, no note |
| Cascade.SaveNamedKeepsRefs | src/feature/tag-manager/place-tag-manager/hooks.ts:30-47 | with unique ids and non-empty names, a save keeps every note reference pointing at a registered name (the `TagStore.*Keeps` lemmas show which handlers keep both hypotheses) |
| Cascade.DeleteNamedKeepsRefs | src/feature/tag-manager/place-tag-manager/hooks.ts:49-61 | with unique ids, a delete keeps every note reference pointing at a registered name |
| Cascade.SaveLabelKeepsRefs | src/feature/tag-manager/date-tag-manager/hooks.ts:26-41 | renaming a label keeps every note's date (or time) among the registered labels |
| Cascade.DeleteLabelKeepsRefs | src/feature/tag-manager/date-tag-manager/hooks.ts:43-56 | deleting a label keeps every note's date (or time) among the remaining labels |
| TagEditing.SaveNamedTag | src/feature/tag-manager/character-tag-manager/hooks.ts:30-47 | the registry becomes the renamed list; the notes get the rename cascade from the old name, which is skipped when that name is `''` |
| TagEditing.DeleteNamedTag | src/feature/tag-manager/character-tag-manager/hooks.ts:49-61 | the registry loses the id; notes referencing its old name have that one field cleared |
| TagEditing.SaveLabel | src/feature/tag-manager/time-tag-manager/hooks.ts:26-41 | the label at the index is replaced; notes holding the old label get the new text, unless the old label was missing or empty |
| TagEditing.DeleteLabel | src/feature/tag-manager/time-tag-manager/hooks.ts:43-56 | the label at the index is removed; notes holding its value have that field cleared |
| TagEditing.AppendNamedTag | src/feature/tag-manager/character-tag-manager/CharacterTagManager.tsx:53-62 | `added` holds exactly when the name is not blank; the registry is then the old one plus the new `{id, name, color}` |
| TagEditing.AppendLabel | src/feature/tag-manager/date-tag-manager/DateTagManager.tsx:42-46 | `added` holds exactly when the text is neither blank nor present |
| TagEditing.NamedTagPanel.constructor | src/feature/tag-manager/place-tag-manager/PlaceTagManager.tsx:14 | a new panel starts empty; its colour is `#FFFFFF` for places and `#000000` for characters |
| TagEditing.NamedTagPanel.AddTag | src/feature/tag-manager/place-tag-manager/PlaceTagManager.tsx:53-62 | a blank name is refused and the input kept; otherwise one place is appended with the chosen colour and the input cleared |
| TagEditing.NamedTagPanel.StartEditingTag | src/feature/tag-manager/character-tag-manager/hooks.ts:24-28 | the editor takes the id, text and colour |
| TagEditing.NamedTagPanel.SaveTag | src/feature/tag-manager/character-tag-manager/hooks.ts:30-47 | nothing changes when no id is being edited or the text is blank; otherwise the save and its cascade happen and the id and text are reset |
| TagEditing.NamedTagPanel.DeleteTag | src/feature/tag-manager/place-tag-manager/hooks.ts:49-61 | the place is removed and only the place field of notes naming it is cleared |
| TagEditing.NamedTagPanel.HandleKeyDown | src/feature/tag-manager/character-tag-manager/CharacterTagManager.tsx:26-35 | Enter saves only without Shift and outside IME composition; Escape leaves editing without touching registry or notes; other keys change nothing |
| TagEditing.LabelPanel.AddLabel | src/feature/tag-manager/time-tag-manager/TimeTagManger.tsx:40-44 | blank or duplicate text is refused and the input kept; otherwise it is appended at the end and the input cleared |
| TagEditing.LabelPanel.StartEditingTag | src/feature/tag-manager/time-tag-manager/hooks.ts:21-24 | the editor takes the index and text |
| TagEditing.LabelPanel.SaveTag | src/feature/tag-manager/date-tag-manager/hooks.ts:26-41 | a no-op without an index or with blank text; otherwise only that index is replaced, notes follow, and the editing state is reset |
| TagEditing.LabelPanel.DeleteTag | src/feature/tag-manager/date-tag-manager/hooks.ts:43-56 | exactly that index is removed and only date fields holding its value are cleared |
| TagEditing.LabelPanel.HandleKeyDown | src/feature/tag-manager/time-tag-manager/TimeTagManger.tsx:17-25 | Enter saves only without Shift and outside IME composition; Escape cancels editing |
| TagManagerPanel.TagManager.constructor | src/feature/tag-manager/TagManager.tsx:20-28 | all inputs empty, colour `#000000`, nothing being edited |
| TagManagerPanel.TagManager.StartEditingTag | src/feature/tag-manager/TagManager.tsx:32-37 | id, kind and text are taken; the colour only when one is given and it is not empty |
| TagManagerPanel.TagManager.SaveTagEdit | src/feature/tag-manager/TagManager.tsx:39-108 | a no-op unless a kind and an id are being edited and the text is not blank; otherwise that kind's registry and the notes get the rename cascade, the other registries are unchanged, and id, kind and text are reset |
| TagManagerPanel.TagManager.DeleteTag | src/feature/tag-manager/TagManager.tsx:111-166 | the entry leaves that kind's registry; only that kind's field is cleared on notes referencing it; the other registries are unchanged |
| TagManagerPanel.TagManager.AddCharacter | src/feature/tag-manager/TagManager.tsx:185-194 | blank names are refused; otherwise appended with the shared colour, and the input cleared; the other inputs, the colour and the editing slot are kept |
| TagManagerPanel.TagManager.AddPlace | src/feature/tag-manager/TagManager.tsx:289-298 | blank names are refused; otherwise appended, and the input cleared; the other inputs, the colour and the editing slot are kept |
| TagManagerPanel.TagManager.AddTime | src/feature/tag-manager/TagManager.tsx:394-398 | blank or duplicate text is refused; otherwise appended, and the input cleared; the other inputs, the colour and the editing slot are kept |
| TagManagerPanel.TagManager.AddDate | src/feature/tag-manager/TagManager.tsx:452-456 | blank or duplicate text is refused; otherwise appended, and the input cleared; the other inputs, the colour and the editing slot are kept |
| TagManagerPanel.TagManager.HandleEditKeyDown | src/feature/tag-manager/TagManager.tsx:213-219 | any Enter saves, even with Shift or during composition; Escape clears the edited id and kind and changes no store; the inputs and the edited colour are kept, and the edited text unless Enter saved |
| Grouping.GroupByKeys | src/feature/timeline/hooks.ts:6-13 | a bucket exists exactly for the keys some element has |
| Grouping.GroupByBucket | src/feature/timeline/hooks.ts:8-11 | each bucket holds exactly the elements with its key, in input order |
| Grouping.GroupByPartition | src/feature/timeline/hooks.ts:6-13 | every element sits in the bucket of its own key as often as in the input, and in no other bucket |
| Grouping.GroupByNonEmpty | src/feature/timeline/hooks.ts:8-11 | every bucket is non-empty |
| Grouping.GroupBySizes | src/feature/timeline/hooks.ts:8-11 | the bucket sizes add up to the number of elements |
| Grouping.ComputeGroupBy | src/feature/timeline/hooks.ts:6-13 | the create-then-push loop succeeds exactly when no key names an inherited `Object.prototype` member, and then yields exactly `GroupBy`; its outcome is `GroupByAsWritten` |
| Grouping.GroupByAsWrittenSpec | src/feature/timeline/hooks.ts:6-13 | the `reduce` as written throws exactly when some key names an inherited member, and otherwise builds `GroupBy` |
| Grouping.InheritedKeyThrows | src/feature/timeline/hooks.ts:8-11 | one note dated `constructor` makes the `reduce` throw, where own-key bucketing gives it a bucket of its own |
| Grouping.BucketsOwnKeys | src/feature/timeline/Timeline.tsx:96-103 | every bucket of a grouping is free of inherited keys under a second key exactly when the whole input is |
| Timeline.DateGroups | src/feature/timeline/hooks.ts:7 | each note lands in the bucket of its date, or of `日付不明` when the date is null or empty |
| Timeline.DateBucket | src/feature/timeline/hooks.ts:6-13 | a date bucket is the filter of the notes by that key, so it holds exactly those notes, in input order, and is non-empty |
| Timeline.SentinelCollision | src/feature/timeline/hooks.ts:7 | an undated note and a note dated literally `日付不明` share one bucket |
| Timeline.FlattenedMembers | src/feature/timeline/Timeline.tsx:78-91 | the first pass emits exactly the pairs of a listed note and the character of its section |
| Timeline.ByPlaceComplete | src/feature/timeline/Timeline.tsx:78-103 | every note of every section appears under its place key (`場所不明` for null or empty) and its section's character |
| Timeline.ByPlaceSound | src/feature/timeline/Timeline.tsx:80-103 | every entry under place `p` and character `c` has place key `p`, `characterName` `c`, and comes from a section of `c` |
| Timeline.ByPlaceExactlyOnce | src/feature/timeline/Timeline.tsx:78-103 | a listed note appears in its own place/character bucket exactly as often as it was listed, and in no other bucket |
| Timeline.CollectByPlace | src/feature/timeline/Timeline.tsx:76-91 | the nested `forEach` loops throw exactly when some place key names an inherited member, and otherwise build exactly the grouping by place of the flattened sections |
| Timeline.RegroupByCharacter | src/feature/timeline/Timeline.tsx:94-115 | throws exactly when some character name in some place bucket names an inherited member; otherwise each place bucket is regrouped by character name |
| Timeline.GroupNotesByPlace | src/feature/timeline/Timeline.tsx:75-116 | throws exactly when a place key or a character name names an inherited member; otherwise the result is `ByPlace` of the input sections |
| TimelineState.TimeSectionKeyInjective | src/store/timeline-store.ts:27 | distinct (date, time) index pairs give distinct `d-t` keys |
| TimelineState.PlaceSectionKeyInjective | src/store/timeline-store.ts:38 | distinct (date, time, place) index triples give distinct `d-t-p` keys |
| TimelineState.TimelineStore.constructor | src/feature/timeline/Timeline.tsx:34-42 | with empty maps every section reads as expanded |
| TimelineState.TimelineStore.ToggleDate | src/store/timeline-store.ts:17-23 | the entry becomes `true` exactly when it was `false` (a missing entry becomes `false`); no other date and neither other map changes |
| TimelineState.TimelineStore.ToggleTime | src/store/timeline-store.ts:25-34 | only the `d-t` entry flips; every other time section reads as before; the other maps are unchanged |
| TimelineState.TimelineStore.TogglePlace | src/store/timeline-store.ts:36-45 | only the `d-t-p` entry flips; every other place section reads as before; the other maps are unchanged |
| TimelineState.ToggleTwice | src/store/timeline-store.ts:21 | two toggles restore what every section reads as, and leave the entry stored as `true` when it was missing |
| DragDrop.KindName | src/feature/tag-manager/types.ts:1-6 | each tag kind's name decodes back to the kind |
| DragDrop.DecodeEncode | src/hooks/use-drag-and-drop.ts:28 | decoding the drag-start payload yields the same id, kind, text and colour |
| DragDrop.EncodeInjective | src/hooks/use-drag-and-drop.ts:28 | different tags never share a payload |
| DragDrop.DragAndDrop.HandleDragStart | src/hooks/use-drag-and-drop.ts:26-36 | the tag is both the payload and `dragItem` |
| DragDrop.DragAndDrop.HandleDragEnd | src/hooks/use-drag-and-drop.ts:38-44 | both refs are cleared |
| DragDrop.DragAndDrop.HandleDragOver | src/hooks/use-drag-and-drop.ts:46-53 | the hovered note id is recorded |
| DragDrop.DragAndDrop.HandleDrop | src/hooks/use-drag-and-drop.ts:61-79 | a payload that does not parse throws and changes nothing; otherwise the tag's field is overwritten on the note, with no toggle, and both refs are cleared |
| PdfStore.FindPdfSpec | src/store/pdf-store.ts:60 | the lookup finds nothing exactly when no document has the id, and otherwise the first one with it |
| PdfStore.RemoveCurrentSelectsFirst | src/store/pdf-store.ts:50-55 | removing the current document selects the first remaining one, or nothing |
| PdfStore.RemoveOtherKeepsCurrent | src/store/pdf-store.ts:51-55 | removing another id keeps the current document |
| PdfStore.RemoveKeepsSelectionValid | src/store/pdf-store.ts:42-57 | after removal the selection is null or a listed document |
| PdfStore.ScrollKeepsSelectionValid | src/store/pdf-store.ts:94-105 | a scroll update keeps the selection null or listed |
| PdfStore.PdfStore.constructor | src/store/pdf-store.ts:29-30 | no documents and no selection |
| PdfStore.PdfStore.AddPdf | src/store/pdf-store.ts:31-40 | one document with scale 1 and scroll 0 is appended; it becomes current only when the list was empty |
| PdfStore.PdfStore.RemovePdf | src/store/pdf-store.ts:42-57 | every document with the id is removed, order kept; the selection is recomputed, and the store stays consistent |
| PdfStore.PdfStore.SetCurrentPdf | src/store/pdf-store.ts:59-61 | the first document with the id becomes current, or nothing |
| PdfStore.PdfStore.UpdateScrollPosition | src/store/pdf-store.ts:94-105 | only `scrollTop` of matching documents, and of the current one when its id matches, changes |
| MemoPanel.Memo.HandleAddNote | src/feature/memo/Memo.tsx:21-24 | the store adds (or refuses) the note, and the input is cleared either way |
| MemoPanel.Memo.HandleKeyDown | src/feature/memo/Memo.tsx:26-32 | Enter submits only without Shift and outside IME composition; other keys change nothing |
| MemoPanel.Memo.StartEdit | src/feature/memo/Memo.tsx:73-76 | a double click edits that note starting from its content |
| MemoPanel.Memo.CommitEdit | src/feature/memo/Memo.tsx:53-56 | blur writes the edited content, without a blank check, into the notes with that id and leaves edit mode |
| MemoPanel.Memo.HandleEditKeyDown | src/feature/memo/Memo.tsx:57-66 | Enter without Shift commits; Escape leaves edit mode without writing; other keys change nothing |
| Sorting.Insert | src/App.tsx:230-237 | insertion adds exactly one element |
| Sorting.SortBy | src/App.tsx:230-237 | the sorted list is a permutation of its input |
| Sorting.SortBySorted | src/App.tsx:230-237 | under a total preorder the result is sorted |
| LegacyApp.ToggleSpec | src/App.tsx:141-166 | on the target notes field `k` becomes null if it held the text and the text otherwise; nothing else changes |
| LegacyApp.ToggleTwice | src/App.tsx:141-166 | dropping the same tag twice restores a target field that was null or held the text, and ends null one that held another text; when every target field was null or held the text, the whole list is restored |
| LegacyApp.NoteOrderTotalPreorder | src/App.tsx:230-237 | comparing by date (null as `''`), then by time, is a total preorder whenever the string comparison is |
| LegacyApp.TimelineNotesSpec | src/App.tsx:228-237 | the timeline holds exactly the notes with a non-empty time, each as often as in the notes, sorted by date then time |
| LegacyApp.DatedBucketInTimeOrder | src/App.tsx:240-247 | inside a dated bucket of `groupedByDate` the notes are in time order |
| LegacyApp.App.constructor | src/App.tsx:44-61 | empty registries and inputs, colour `#000000`, nothing being edited |
| LegacyApp.App.AddNote | src/App.tsx:67-82 | blank input is refused and kept; otherwise a note with null references is appended and the input cleared; registries, tag inputs and both editing slots are kept |
| LegacyApp.App.HandleKeyDown | src/App.tsx:204-210 | Enter adds only without Shift and outside IME composition, clearing the input on success; registries, tag inputs and both editing slots are kept |
| LegacyApp.App.HandleDrop | src/App.tsx:126-167 | an empty payload changes nothing; a payload that does not parse throws before any change; otherwise the target notes' field is toggled; registries, inputs and editing slots are kept |
| LegacyApp.App.RemoveTag | src/App.tsx:170-196 | only field `k` of the matching notes becomes null; registries, inputs and editing slots are kept |
| LegacyApp.App.DeleteNote | src/App.tsx:199-201 | the notes with that id are filtered out; registries, inputs and editing slots are kept |
| LegacyApp.App.GetCharacterColor | src/App.tsx:213-216 | first-match colour of the character name, or `#000000` |
| LegacyApp.App.GetPlaceColor | src/App.tsx:219-222 | first-match colour of the place name, or `#000000` |
| LegacyApp.App.GroupedByDate | src/App.tsx:240-247 | throws exactly when a timeline note's date key names an inherited member; otherwise the date buckets of the timeline notes |
| LegacyApp.App.StartEditingTag | src/App.tsx:250-255 | id, kind and text are taken; the colour only when one is given and it is not empty; notes, registries, inputs and the note edit are kept |
| LegacyApp.App.SaveCharacterEdit | src/App.tsx:257-326 | the character is renamed and recoloured, and the notes follow unless the old name is `''`; inputs and both editing slots are kept |
| LegacyApp.App.SavePlaceEdit | src/App.tsx:257-326 | the place is renamed and recoloured, and the notes follow unless the old name is `''`; inputs and both editing slots are kept |
| LegacyApp.App.SaveTimeEdit | src/App.tsx:257-326 | the time label at the index is replaced, and the notes follow unless the old label is missing or empty; inputs and both editing slots are kept |
| LegacyApp.App.SaveDateEdit | src/App.tsx:257-326 | the date label at the index is replaced, and the notes follow unless the old label is missing or empty; inputs and both editing slots are kept |
| LegacyApp.App.SaveTagEdit | src/App.tsx:257-326 | a no-op unless a kind and an id are being edited and the text is not blank; otherwise the cascade of that kind, with only that registry changed, and id, kind and text reset; the edited colour, the inputs and the note edit are kept |
| LegacyApp.App.DeleteTag | src/App.tsx:329-384 | the entry leaves its registry, and only that kind's field is cleared on notes referencing it; inputs and both editing slots are kept |
| LegacyApp.App.HandleTagEditKeyDown | src/App.tsx:438-443 | any Enter saves; Escape clears the edited id and kind; other keys and Escape keep notes, registries and the edited text; the edited colour, the inputs and the note edit are always kept |
| LegacyApp.App.AddCharacter | src/App.tsx:410-419 | blank names are refused; otherwise appended and the input cleared; the other inputs, the colour and both editing slots are kept |
| LegacyApp.App.AddPlace | src/App.tsx:569-578 | blank names are refused; otherwise appended and the input cleared; the other inputs, the colour and both editing slots are kept |
| LegacyApp.App.AddTime | src/App.tsx:722-726 | blank or duplicate text is refused; otherwise appended and the input cleared; the other inputs, the colour and both editing slots are kept |
| LegacyApp.App.AddDate | src/App.tsx:818-822 | blank or duplicate text is refused; otherwise appended and the input cleared; the other inputs, the colour and both editing slots are kept |
| LegacyApp.App.StartEdit | src/App.tsx:1008-1011 | a double click edits that note starting from its content; notes, registries, inputs and the tag edit are kept |
| LegacyApp.App.CommitEdit | src/App.tsx:988-991 | blur writes the edited content into the notes with that id and leaves edit mode; the edit buffer, registries, inputs and the tag edit are kept |
| LegacyApp.App.HandleNoteEditKeyDown | src/App.tsx:992-1000 | Enter without Shift commits; Escape leaves edit mode without writing; the edit buffer, registries, inputs and the tag edit are kept |
| Seqs.ComputeMap | src/store/note-store.ts:83 | the loop yields exactly `Map` |
| Seqs.ComputeFilter | src/store/note-store.ts:76 | the loop yields exactly `Filter` |
| Text.ParseNatStr | src/store/timeline-store.ts:27 | a number's decimal text reads back as that number |

## Left out

- Rendering: JSX, CSS classes (`classList` add and remove in the drag handlers and in `handleDrop`), the skeletons, accordions and buttons, and the `setTimeout` in the application component.
- The PDF viewer (react-pdf, DOM `scrollTop`, the scroll throttle timer): I/O and timers.
- `zoomIn`/`zoomOut` in `src/store/pdf-store.ts`: floating-point scale arithmetic. The model keeps `scale` as a field set to 1.
- `URL.createObjectURL`/`revokeObjectURL`: foreign browser calls. The URL is a parameter of `AddPdf`, and nothing is revoked. The `File` object is not kept.
- `getAlphaColor` in `src/feature/timeline/Timeline.tsx`: regex and float formatting of colours.
- `Date.now()` ids and `toISOString()` timestamps are parameters. The handlers assume nothing about them. The reference-consistency lemmas in `Cascade` take unique ids as a hypothesis, and `TagStore.AppendedTagKeeps` shows that an add keeps ids unique exactly when the id it is handed is fresh.
- DragDrop.Decode: `JSON.stringify`/`JSON.parse` are replaced by a length-prefixed text encoding with the same round trip. A payload that does not parse models the exception. Payloads that parse to something other than a tag (such as `null`, which `if (tagData)` would skip) are not modelled.
- `localeCompare` is the parameter `le`, required to be a total preorder. It is not Unicode collation.
- LegacyApp.TimelineNotesSpec: does not state that `Array.prototype.sort` is stable. The model's insertion sort is stable, but no lemma says so.
- Grouping.GroupBy: the order in which `Object.entries` lists the buckets of a record (integer-like keys first) is not modelled. Groupings are maps.
- The producer of the date→time→character sections (`useGroupedNotes`) is not part of this model: `src/feature/timeline/hooks.ts` exports only the date grouping. `Timeline.GroupNotesByPlace` takes the character sections as input.
- The application component's own `handleDragStart`/`handleDragEnd`/`handleDragOver` repeat the hook's logic and are not modelled again. Its `handleDrop` clears no refs, and the model leaves them out of `LegacyApp.App`.
- React mechanics: `useState` batching, hook wiring and re-rendering. Each handler is a sequence of updates on one state snapshot. `TagManagerPanel.TagManager` requires its two named stores, and its two label stores, to be distinct objects.
- `rightPanelMode` (tags or timeline panel) is a display switch and is not modelled.
- PdfStore.PdfDocument: `scrollTop` is an unbounded integer rather than a float.
- Undated notes do not get a bucket of their own, as the sentinel key suggests. A note dated literally `日付不明` joins them (`Timeline.SentinelCollision`). The model follows the code.
- No registry is ever sorted: all add handlers append, and the model does the same.

## Findings

| source | as written | input that shows it | evidently intended | confidence | as-written member | corrected member |
|---|---|---|---|---|---|---|
| src/feature/timeline/hooks.ts:6-13 | the buckets live in a plain `{}`, and `!acc[dateKey]` also sees members inherited from `Object.prototype`, so no bucket is created and `acc[dateKey].push` throws a TypeError (likewise `src/App.tsx:240-247` and `src/feature/timeline/Timeline.tsx:78-103` for place keys and character names) | one note whose date is `constructor` (or `toString`, `__proto__`, …) | every key gets an own bucket holding its notes | not executed | Grouping.InheritedKeyThrows | Grouping.GroupByPartition |
