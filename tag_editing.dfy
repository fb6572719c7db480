/**
 * The per-kind tag editors: the state of each `*TagManager.tsx` component
 * together with the hook it uses (the `hooks.ts` of each tag-manager
 * feature). Characters and places share one shape, times and dates
 * another; `kind` selects the note field the cascade rewrites.
 */
module TagEditing {
  import opened Wrappers
  import opened Text
  import opened Notes
  import opened TagStore
  import opened Cascade
  import opened Keyboard
  import Seqs

  /** The colour a new tag starts with: black for characters, white for places. */
  function DefaultTagColor(kind: TagKind): string {
    if kind == Place then "#FFFFFF" else "#000000"
  }

  /** What a character or place save leaves behind: the registry updated by id, the notes by old name. */
  twostate predicate NamedSaved(store: NamedTagStore, notes: NoteStore, k: TagKind, id: int, text: string, color: string)
    reads store, notes
  {
    store.tags == Updated(old(store.tags), id, text, color)
    && notes.notes == AfterRename(old(notes.notes), k, OldName(old(store.tags), id), text)
  }

  /** What a character or place delete leaves behind. */
  twostate predicate NamedDeleted(store: NamedTagStore, notes: NoteStore, k: TagKind, id: int)
    reads store, notes
  {
    store.tags == WithoutTag(old(store.tags), id)
    && notes.notes == Cleared(old(notes.notes), k, RemovedName(old(store.tags), id))
  }

  /** What a time or date save leaves behind: the label at the index replaced, the notes by old label. */
  twostate predicate LabelSaved(store: LabelStore, notes: NoteStore, k: TagKind, i: int, text: string)
    reads store, notes
  {
    store.labels == ReplaceAt(old(store.labels), i, text)
    && notes.notes == AfterRename(old(notes.notes), k, OldLabel(old(store.labels), i), text)
  }

  /** What a time or date delete leaves behind. */
  twostate predicate LabelDeleted(store: LabelStore, notes: NoteStore, k: TagKind, i: int)
    reads store, notes
  {
    store.labels == RemoveAt(old(store.labels), i)
    && notes.notes == Cleared(old(notes.notes), k, LabelAt(old(store.labels), i))
  }

  /** `saveTag` of the character and place hooks, on the stores it is given. */
  method SaveNamedTag(store: NamedTagStore, notes: NoteStore, k: TagKind, id: int, text: string, color: string)
    modifies store, notes
    ensures NamedSaved(store, notes, k, id, text, color)
  {
    var oldName := OldName(store.tags, id);
    var updated := Seqs.ComputeMap(store.tags, UpdateIf(id, text, color));
    store.SetTags(updated);
    if oldName != "" {
      var renamed := Seqs.ComputeMap(notes.notes, RenameIf(k, oldName, text));
      notes.SetNotes(renamed);
    }
  }

  /** `deleteTag` of the character and place hooks; the name is read from the list before the filter. */
  method DeleteNamedTag(store: NamedTagStore, notes: NoteStore, k: TagKind, id: int)
    modifies store, notes
    ensures NamedDeleted(store, notes, k, id)
  {
    var tags := store.tags;
    var kept := Seqs.ComputeFilter(tags, OtherId(id));
    store.SetTags(kept);
    var name := RemovedName(tags, id);
    var cleared := Seqs.ComputeMap(notes.notes, ClearIf(k, name));
    notes.SetNotes(cleared);
  }

  /** `saveTag` of the time and date hooks. */
  method SaveLabel(store: LabelStore, notes: NoteStore, k: TagKind, i: int, text: string)
    modifies store, notes
    ensures LabelSaved(store, notes, k, i, text)
  {
    var oldName := OldLabel(store.labels, i);
    store.SetLabels(ReplaceAt(store.labels, i, text));
    if oldName != "" {
      var renamed := Seqs.ComputeMap(notes.notes, RenameIf(k, oldName, text));
      notes.SetNotes(renamed);
    }
  }

  /** `deleteTag` of the time and date hooks; the value is read before the filter. */
  method DeleteLabel(store: LabelStore, notes: NoteStore, k: TagKind, i: int)
    modifies store, notes
    ensures LabelDeleted(store, notes, k, i)
  {
    var value := LabelAt(store.labels, i);
    store.SetLabels(RemoveAt(store.labels, i));
    var cleared := Seqs.ComputeMap(notes.notes, ClearIf(k, value));
    notes.SetNotes(cleared);
  }

  /** An add button for characters or places: a blank name is refused, anything else goes last. */
  method AppendNamedTag(store: NamedTagStore, id: int, text: string, color: string) returns (added: bool)
    modifies store
    ensures added <==> !IsBlank(text)
    ensures store.tags == AppendedTag(old(store.tags), id, text, color)
  {
    added := !IsBlank(text);
    if added {
      store.SetTags(store.tags + [NamedTag(id, text, color)]);
    }
  }

  /** An add button for times or dates: blank text and exact duplicates are refused. */
  method AppendLabel(store: LabelStore, text: string) returns (added: bool)
    modifies store
    ensures added <==> CanAddLabel(old(store.labels), text)
    ensures store.labels == AppendedLabel(old(store.labels), text)
  {
    added := !IsBlank(text) && text !in store.labels;
    if added {
      store.SetLabels(store.labels + [text]);
    }
  }

  /** CharacterTagManager or PlaceTagManager with its hook's editing state. */
  class NamedTagPanel {
    const kind: TagKind
    var newText: string
    var newTagColor: string
    var editingTagId: Option<int>
    var editTagText: string
    var editTagColor: string

    constructor (kind: TagKind)
      requires kind == Character || kind == Place
      ensures this.kind == kind && newText == "" && newTagColor == DefaultTagColor(kind)
      ensures editingTagId == None && editTagText == "" && editTagColor == ""
    {
      this.kind := kind;
      newText := "";
      newTagColor := DefaultTagColor(kind);
      editingTagId := None;
      editTagText := "";
      editTagColor := "";
    }

    /** The inline add handler; the input is cleared only after a successful add. */
    method AddTag(store: NamedTagStore, id: int)
      modifies this, store
      ensures store.tags == AppendedTag(old(store.tags), id, old(newText), newTagColor)
      ensures IsBlank(old(newText)) ==> store.tags == old(store.tags) && newText == old(newText)
      ensures !IsBlank(old(newText)) ==> store.tags == old(store.tags) + [NamedTag(id, old(newText), newTagColor)] && newText == ""
      ensures newTagColor == old(newTagColor) && editingTagId == old(editingTagId)
      ensures editTagText == old(editTagText) && editTagColor == old(editTagColor)
    {
      var added := AppendNamedTag(store, id, newText, newTagColor);
      if added {
        newText := "";
      }
    }

    method StartEditingTag(id: int, text: string, color: string)
      modifies this
      ensures editingTagId == Some(id) && editTagText == text && editTagColor == color
      ensures newText == old(newText) && newTagColor == old(newTagColor)
    {
      editingTagId := Some(id);
      editTagText := text;
      editTagColor := color;
    }

    /** The state a `saveTag` call leaves: a no-op when not editing or the text is blank. */
    twostate predicate Saved(store: NamedTagStore, notes: NoteStore)
      reads this, store, notes
    {
      if old(editingTagId).None? || IsBlank(old(editTagText)) then
        store.tags == old(store.tags) && notes.notes == old(notes.notes)
        && editingTagId == old(editingTagId) && editTagText == old(editTagText)
      else
        NamedSaved(store, notes, kind, old(editingTagId).value, old(editTagText), old(editTagColor))
        && editingTagId == None && editTagText == ""
    }

    method SaveTag(store: NamedTagStore, notes: NoteStore)
      modifies this, store, notes
      ensures Saved(store, notes)
      ensures newText == old(newText) && newTagColor == old(newTagColor) && editTagColor == old(editTagColor)
    {
      if editingTagId.None? || IsBlank(editTagText) {
        return;
      }
      SaveNamedTag(store, notes, kind, editingTagId.value, editTagText, editTagColor);
      editingTagId := None;
      editTagText := "";
    }

    method DeleteTag(id: int, store: NamedTagStore, notes: NoteStore)
      modifies store, notes
      ensures NamedDeleted(store, notes, kind, id)
    {
      DeleteNamedTag(store, notes, kind, id);
    }

    /** Enter (not Shift, not composing) saves; Escape leaves edit mode without saving. */
    method HandleKeyDown(e: KeyEvent, store: NamedTagStore, notes: NoteStore)
      modifies this, store, notes
      ensures SubmitsOnEnter(e) ==> Saved(store, notes)
      ensures IsEscape(e) ==> editingTagId == None && store.tags == old(store.tags) && notes.notes == old(notes.notes)
      ensures !SubmitsOnEnter(e) && !IsEscape(e) ==>
        editingTagId == old(editingTagId) && store.tags == old(store.tags) && notes.notes == old(notes.notes)
      ensures !SubmitsOnEnter(e) ==> editTagText == old(editTagText)
      ensures newText == old(newText) && newTagColor == old(newTagColor) && editTagColor == old(editTagColor)
    {
      if SubmitsOnEnter(e) {
        SaveTag(store, notes);
      }
      if IsEscape(e) {
        editingTagId := None;
      }
    }
  }

  /** TimeTagManger or DateTagManager with its hook's editing state; tags are list positions. */
  class LabelPanel {
    const kind: TagKind
    var newText: string
    var editingTagId: Option<int>
    var editTagText: string

    constructor (kind: TagKind)
      requires kind == Time || kind == Date
      ensures this.kind == kind && newText == "" && editingTagId == None && editTagText == ""
    {
      this.kind := kind;
      newText := "";
      editingTagId := None;
      editTagText := "";
    }

    /** The inline add handler: blank text and exact duplicates are rejected; a new label goes last. */
    method AddLabel(store: LabelStore)
      modifies this, store
      ensures store.labels == AppendedLabel(old(store.labels), old(newText))
      ensures CanAddLabel(old(store.labels), old(newText)) ==> store.labels == old(store.labels) + [old(newText)] && newText == ""
      ensures !CanAddLabel(old(store.labels), old(newText)) ==> store.labels == old(store.labels) && newText == old(newText)
      ensures editingTagId == old(editingTagId) && editTagText == old(editTagText)
    {
      var added := AppendLabel(store, newText);
      if added {
        newText := "";
      }
    }

    method StartEditingTag(i: int, text: string)
      modifies this
      ensures editingTagId == Some(i) && editTagText == text && newText == old(newText)
    {
      editingTagId := Some(i);
      editTagText := text;
    }

    /** The state a `saveTag` call leaves: a no-op when not editing or the text is blank. */
    twostate predicate Saved(store: LabelStore, notes: NoteStore)
      reads this, store, notes
    {
      if old(editingTagId).None? || IsBlank(old(editTagText)) then
        store.labels == old(store.labels) && notes.notes == old(notes.notes)
        && editingTagId == old(editingTagId) && editTagText == old(editTagText)
      else
        LabelSaved(store, notes, kind, old(editingTagId).value, old(editTagText))
        && editingTagId == None && editTagText == ""
    }

    method SaveTag(store: LabelStore, notes: NoteStore)
      modifies this, store, notes
      ensures Saved(store, notes)
      ensures newText == old(newText)
    {
      if editingTagId.None? || IsBlank(editTagText) {
        return;
      }
      SaveLabel(store, notes, kind, editingTagId.value, editTagText);
      editingTagId := None;
      editTagText := "";
    }

    method DeleteTag(i: int, store: LabelStore, notes: NoteStore)
      modifies store, notes
      ensures LabelDeleted(store, notes, kind, i)
    {
      DeleteLabel(store, notes, kind, i);
    }

    /** Enter (not Shift, not composing) saves; Escape leaves edit mode without saving. */
    method HandleKeyDown(e: KeyEvent, store: LabelStore, notes: NoteStore)
      modifies this, store, notes
      ensures SubmitsOnEnter(e) ==> Saved(store, notes)
      ensures IsEscape(e) ==> editingTagId == None && store.labels == old(store.labels) && notes.notes == old(notes.notes)
      ensures !SubmitsOnEnter(e) && !IsEscape(e) ==>
        editingTagId == old(editingTagId) && store.labels == old(store.labels) && notes.notes == old(notes.notes)
      ensures !SubmitsOnEnter(e) ==> editTagText == old(editTagText)
      ensures newText == old(newText)
    {
      if SubmitsOnEnter(e) {
        SaveTag(store, notes);
      }
      if IsEscape(e) {
        editingTagId := None;
      }
    }
  }
}
