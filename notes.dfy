/**
 * The note repository (src/store/note-store.ts): the `notes` list and its
 * add, delete, attach-tag and detach-tag operations. Notes refer to tags by
 * text, through four optional reference fields.
 */
module Notes {
  import opened Wrappers
  import opened Text
  import Seqs

  /** The tag categories of src/feature/tag-manager/types.ts; each names one reference field of a note. */
  datatype TagKind = Character | Place | Time | Date

  /** A note; `None` in a reference field is JavaScript's `null`. */
  datatype Note = Note(
    id: int,
    content: string,
    character: Option<string>,
    place: Option<string>,
    time: Option<string>,
    date: Option<string>,
    createdAt: string)

  /** `note[k]` */
  function FieldOf(n: Note, k: TagKind): Option<string> {
    match k
    case Character => n.character
    case Place => n.place
    case Time => n.time
    case Date => n.date
  }

  /** `{ ...note, [k]: v }`: one reference field replaced, everything else kept. */
  function SetField(n: Note, k: TagKind, v: Option<string>): (r: Note)
    ensures FieldOf(r, k) == v
    ensures forall j :: j != k ==> FieldOf(r, j) == FieldOf(n, j)
    ensures r.id == n.id && r.content == n.content && r.createdAt == n.createdAt
  {
    match k
    case Character => n.(character := v)
    case Place => n.(place := v)
    case Time => n.(time := v)
    case Date => n.(date := v)
  }

  /** The note `addNote` creates: untrimmed content and no references. */
  function NewNote(id: int, content: string, createdAt: string): Note {
    Note(id, content, None, None, None, None, createdAt)
  }

  /** The `notes` list after `addNote(content)`; the clock readings are parameters. */
  function Added(notes: seq<Note>, content: string, id: int, createdAt: string): seq<Note> {
    if IsBlank(content) then notes else notes + [NewNote(id, content, createdAt)]
  }

  /** The filter predicate of `deleteNote`. */
  function KeepOther(noteId: int): Note -> bool {
    (n: Note) => n.id != noteId
  }

  /** The per-note step of `addTagToNote` (v = Some(text)) and `removeTagFromNote` (v = None). */
  function TagIf(noteId: int, k: TagKind, v: Option<string>): Note -> Note {
    (n: Note) => if n.id == noteId then SetField(n, k, v) else n
  }

  /** The per-note step of committing a content edit. */
  function EditIf(noteId: int, content: string): Note -> Note {
    (n: Note) => if n.id == noteId then n.(content := content) else n
  }

  function WithoutNote(notes: seq<Note>, noteId: int): seq<Note> {
    Seqs.Filter(notes, KeepOther(noteId))
  }

  function WithTag(notes: seq<Note>, noteId: int, k: TagKind, v: Option<string>): seq<Note> {
    Seqs.Map(notes, TagIf(noteId, k, v))
  }

  function WithContent(notes: seq<Note>, noteId: int, content: string): seq<Note> {
    Seqs.Map(notes, EditIf(noteId, content))
  }

  /** Adding blank content changes nothing; otherwise exactly one fresh note is appended at the end. */
  lemma AddedSpec(notes: seq<Note>, content: string, id: int, createdAt: string)
    ensures var r := Added(notes, content, id, createdAt);
      (IsBlank(content) ==> r == notes)
      && (!IsBlank(content) ==>
            |r| == |notes| + 1 && r[..|notes|] == notes
            && r[|notes|].content == content && r[|notes|].id == id
            && forall k :: FieldOf(r[|notes|], k) == None)
  {
    if !IsBlank(content) {
      var r := Added(notes, content, id, createdAt);
      assert r[..|notes|] == notes;
      forall k ensures FieldOf(r[|notes|], k) == None {
        match k
        case Character =>
        case Place =>
        case Time =>
        case Date =>
      }
    }
  }

  /**
   * `deleteNote` removes every note with the id, keeps each other note exactly
   * as often as before, and deleting twice is deleting once.
   */
  lemma DeleteNoteSpec(notes: seq<Note>, noteId: int)
    ensures var r := WithoutNote(notes, noteId);
      (forall i :: 0 <= i < |r| ==> r[i].id != noteId)
      && (forall n: Note :: n.id != noteId ==> multiset(r)[n] == multiset(notes)[n])
      && WithoutNote(r, noteId) == r
  {
    forall n: Note | n.id != noteId
      ensures multiset(WithoutNote(notes, noteId))[n] == multiset(notes)[n]
    {
      Seqs.FilterCount(notes, KeepOther(noteId), n);
    }
    Seqs.FilterIdempotent(notes, KeepOther(noteId));
  }

  /** Deleting an id no note carries is a no-op. */
  lemma DeleteUnknownIsNoop(notes: seq<Note>, noteId: int)
    requires forall i :: 0 <= i < |notes| ==> notes[i].id != noteId
    ensures WithoutNote(notes, noteId) == notes
  {
    Seqs.FilterKeepsAll(notes, KeepOther(noteId));
  }

  /** Deletion keeps the surviving notes in order: it works segment by segment. */
  lemma DeleteKeepsOrder(a: seq<Note>, b: seq<Note>, noteId: int)
    ensures WithoutNote(a + b, noteId) == WithoutNote(a, noteId) + WithoutNote(b, noteId)
  {
    Seqs.FilterConcat(a, b, KeepOther(noteId));
  }

  /** Detaching the same field twice is detaching it once. */
  lemma DetachIdempotent(notes: seq<Note>, noteId: int, k: TagKind)
    ensures WithTag(WithTag(notes, noteId, k, None), noteId, k, None) == WithTag(notes, noteId, k, None)
  {
    var once := WithTag(notes, noteId, k, None);
    var twice := WithTag(once, noteId, k, None);
    forall i | 0 <= i < |notes| ensures twice[i] == once[i] {
      if notes[i].id == noteId {
        var n := notes[i];
        assert once[i] == SetField(n, k, None);
        assert SetField(SetField(n, k, None), k, None) == SetField(n, k, None) by {
          match k
          case Character =>
          case Place =>
          case Time =>
          case Date =>
        }
      }
    }
  }

  /** Attaching and detaching keep length, order, ids, content, timestamps and every other field. */
  lemma WithTagShape(notes: seq<Note>, noteId: int, k: TagKind, v: Option<string>)
    ensures var r := WithTag(notes, noteId, k, v);
      |r| == |notes|
      && forall i :: 0 <= i < |r| ==>
          r[i].id == notes[i].id && r[i].content == notes[i].content && r[i].createdAt == notes[i].createdAt
          && (forall j :: j != k ==> FieldOf(r[i], j) == FieldOf(notes[i], j))
          && FieldOf(r[i], k) == (if notes[i].id == noteId then v else FieldOf(notes[i], k))
  {
  }

  /**
   * A content edit rewrites the content of the notes with the id, and
   * nothing else; there is no blank check, so empty content is stored too.
   */
  lemma WithContentSpec(notes: seq<Note>, noteId: int, content: string)
    ensures var r := WithContent(notes, noteId, content);
      |r| == |notes|
      && forall i :: 0 <= i < |r| ==>
          r[i].id == notes[i].id && r[i].createdAt == notes[i].createdAt
          && (forall k :: FieldOf(r[i], k) == FieldOf(notes[i], k))
          && r[i].content == (if notes[i].id == noteId then content else notes[i].content)
  {
  }

  /** The note store of src/store/note-store.ts. */
  class NoteStore {
    var notes: seq<Note>

    constructor ()
      ensures notes == []
    {
      notes := [];
    }

    method SetNotes(ns: seq<Note>)
      modifies this
      ensures notes == ns
    {
      notes := ns;
    }

    /** Ignores blank content; otherwise appends a note without references. */
    method AddNote(content: string, id: int, createdAt: string)
      modifies this
      ensures IsBlank(content) ==> notes == old(notes)
      ensures !IsBlank(content) ==> notes == old(notes) + [NewNote(id, content, createdAt)]
      ensures notes == Added(old(notes), content, id, createdAt)
    {
      if IsBlank(content) {
        return;
      }
      notes := notes + [NewNote(id, content, createdAt)];
    }

    method DeleteNote(noteId: int)
      modifies this
      ensures notes == WithoutNote(old(notes), noteId)
      ensures forall i :: 0 <= i < |notes| ==> notes[i] in old(notes) && notes[i].id != noteId
      ensures forall i :: 0 <= i < |old(notes)| && old(notes)[i].id != noteId ==> old(notes)[i] in notes
    {
      notes := Seqs.ComputeFilter(notes, KeepOther(noteId));
    }

    /** Overwrites field `k` of the notes with this id, whatever it held. */
    method AddTagToNote(noteId: int, k: TagKind, v: string)
      modifies this
      ensures notes == WithTag(old(notes), noteId, k, Some(v))
      ensures |notes| == |old(notes)|
      ensures forall i :: 0 <= i < |notes| ==>
        notes[i] == if old(notes)[i].id == noteId then SetField(old(notes)[i], k, Some(v)) else old(notes)[i]
    {
      notes := Seqs.ComputeMap(notes, TagIf(noteId, k, Some(v)));
    }

    /** Sets field `k` of the notes with this id to null. */
    method RemoveTagFromNote(noteId: int, k: TagKind)
      modifies this
      ensures notes == WithTag(old(notes), noteId, k, None)
      ensures |notes| == |old(notes)|
      ensures forall i :: 0 <= i < |notes| ==>
        notes[i] == if old(notes)[i].id == noteId then SetField(old(notes)[i], k, None) else old(notes)[i]
    {
      notes := Seqs.ComputeMap(notes, TagIf(noteId, k, None));
    }
  }
}
