/**
 * The memo panel (src/feature/memo/Memo.tsx): the new-note input and the
 * inline content editor over the note store.
 */
module MemoPanel {
  import opened Wrappers
  import opened Text
  import opened Notes
  import opened Keyboard
  import Seqs

  class Memo {
    var editingNote: Option<int>
    var editNoteContent: string
    var newNote: string

    constructor ()
      ensures editingNote == None && editNoteContent == "" && newNote == ""
    {
      editingNote := None;
      editNoteContent := "";
      newNote := "";
    }

    /** Hands the input to `addNote` and clears it, whether or not the store accepted it. */
    method HandleAddNote(store: NoteStore, id: int, createdAt: string)
      modifies this, store
      ensures store.notes == Added(old(store.notes), old(newNote), id, createdAt)
      ensures newNote == ""
      ensures editingNote == old(editingNote) && editNoteContent == old(editNoteContent)
    {
      store.AddNote(newNote, id, createdAt);
      newNote := "";
    }

    /** Enter submits, except with Shift (a line break) or during IME composition. */
    method HandleKeyDown(e: KeyEvent, store: NoteStore, id: int, createdAt: string)
      modifies this, store
      ensures SubmitsOnEnter(e) ==> store.notes == Added(old(store.notes), old(newNote), id, createdAt) && newNote == ""
      ensures !SubmitsOnEnter(e) ==> store.notes == old(store.notes) && newNote == old(newNote)
      ensures editingNote == old(editingNote) && editNoteContent == old(editNoteContent)
    {
      if SubmitsOnEnter(e) {
        HandleAddNote(store, id, createdAt);
      }
    }

    /** Double-click: edit this note, starting from its current content. */
    method StartEdit(note: Note)
      modifies this
      ensures editingNote == Some(note.id) && editNoteContent == note.content && newNote == old(newNote)
    {
      editingNote := Some(note.id);
      editNoteContent := note.content;
    }

    /** Blur, or Enter without Shift: write the edited content into the note and leave edit mode. */
    method CommitEdit(noteId: int, store: NoteStore)
      modifies this, store
      ensures store.notes == WithContent(old(store.notes), noteId, old(editNoteContent))
      ensures editingNote == None && editNoteContent == old(editNoteContent) && newNote == old(newNote)
    {
      var edited := Seqs.ComputeMap(store.notes, EditIf(noteId, editNoteContent));
      store.SetNotes(edited);
      editingNote := None;
    }

    /** Enter without Shift commits (no composition check here); Escape leaves edit mode without writing. */
    method HandleEditKeyDown(e: KeyEvent, noteId: int, store: NoteStore)
      modifies this, store
      ensures e.key == "Enter" && !e.shiftKey ==> store.notes == WithContent(old(store.notes), noteId, old(editNoteContent))
      ensures !(e.key == "Enter" && !e.shiftKey) ==> store.notes == old(store.notes)
      ensures (e.key == "Enter" && !e.shiftKey) || IsEscape(e) ==> editingNote == None
      ensures !(e.key == "Enter" && !e.shiftKey) && !IsEscape(e) ==> editingNote == old(editingNote)
      ensures editNoteContent == old(editNoteContent) && newNote == old(newNote)
    {
      if e.key == "Enter" && !e.shiftKey {
        CommitEdit(noteId, store);
      }
      if IsEscape(e) {
        editingNote := None;
      }
    }
  }
}
