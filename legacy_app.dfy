/**
 * The single-component version of the app (src/App.tsx). It keeps notes,
 * registries and edit state in component state instead of stores and
 * repeats the store and editor logic, with two differences of its own: a
 * drop toggles the note field instead of overwriting it, and it builds the
 * timeline itself from the notes that carry a time.
 */
module LegacyApp {
  import opened Wrappers
  import opened Text
  import opened Seqs
  import opened Notes
  import opened TagStore
  import opened Cascade
  import opened Keyboard
  import opened DragDrop
  import opened Grouping
  import opened Sorting
  import opened Timeline

  /** The drop step: `note[k] === text ? null : text` on the target note. */
  function ToggleIf(noteId: int, k: TagKind, text: string): Note -> Note {
    (n: Note) => if n.id == noteId then SetField(n, k, if FieldOf(n, k) == Some(text) then None else Some(text)) else n
  }

  function WithToggled(notes: seq<Note>, noteId: int, k: TagKind, text: string): seq<Note> {
    Map(notes, ToggleIf(noteId, k, text))
  }

  /** A drop sets the field to the text unless it already holds it, then clears it; only the target notes change, and only in field `k`. */
  lemma ToggleSpec(notes: seq<Note>, noteId: int, k: TagKind, text: string)
    ensures var r := WithToggled(notes, noteId, k, text);
      |r| == |notes|
      && forall i :: 0 <= i < |r| ==>
          (notes[i].id != noteId ==> r[i] == notes[i])
          && (notes[i].id == noteId ==>
                FieldOf(r[i], k) == (if FieldOf(notes[i], k) == Some(text) then None else Some(text))
                && r[i].id == notes[i].id && r[i].content == notes[i].content && r[i].createdAt == notes[i].createdAt
                && forall j :: j != k ==> FieldOf(r[i], j) == FieldOf(notes[i], j))
  {
  }

  /** Two notes that agree on id, content, timestamp and all four reference fields are the same note. */
  lemma SameNote(a: Note, b: Note)
    requires a.id == b.id && a.content == b.content && a.createdAt == b.createdAt
    requires forall j :: FieldOf(a, j) == FieldOf(b, j)
    ensures a == b
  {
    assert FieldOf(a, Character) == FieldOf(b, Character) && FieldOf(a, Place) == FieldOf(b, Place);
    assert FieldOf(a, Time) == FieldOf(b, Time) && FieldOf(a, Date) == FieldOf(b, Date);
  }

  /**
   * Dropping the same tag twice restores a field that was empty or held
   * the text; a field that held a different text ends up empty. When every
   * target note's field was empty or held the text, the whole list is
   * restored.
   */
  lemma {:induction false} ToggleTwice(notes: seq<Note>, noteId: int, k: TagKind, text: string)
    ensures var r := WithToggled(WithToggled(notes, noteId, k, text), noteId, k, text);
      |r| == |notes|
      && (forall i :: 0 <= i < |r| ==>
            FieldOf(r[i], k) == (if notes[i].id == noteId && FieldOf(notes[i], k).Some? && FieldOf(notes[i], k) != Some(text)
                                 then None else FieldOf(notes[i], k)))
      && ((forall i :: 0 <= i < |notes| && notes[i].id == noteId ==>
             FieldOf(notes[i], k) == None || FieldOf(notes[i], k) == Some(text)) ==> r == notes)
  {
    var once := WithToggled(notes, noteId, k, text);
    var r := WithToggled(once, noteId, k, text);
    ToggleSpec(notes, noteId, k, text);
    ToggleSpec(once, noteId, k, text);
    if forall i :: 0 <= i < |notes| && notes[i].id == noteId ==> FieldOf(notes[i], k) == None || FieldOf(notes[i], k) == Some(text) {
      forall i | 0 <= i < |notes|
        ensures r[i] == notes[i]
      {
        if notes[i].id == noteId {
          SameNote(r[i], notes[i]);
        }
      }
    }
  }

  /** `a.date || ''` */
  function DateOrEmpty(n: Note): string {
    if n.date.Some? then n.date.value else ""
  }

  /** `a.time || ''` */
  function TimeOrEmpty(n: Note): string {
    if n.time.Some? then n.time.value else ""
  }

  /** `filter((note) => note.time)`: a time that is neither null nor empty. */
  function HasTime(n: Note): bool {
    n.time.Some? && n.time.value != ""
  }

  /**
   * The comparator of `timelineNotes`, read as "sorts no later than", over a
   * string order `le` standing for `localeCompare` (`le(x, y)` when
   * `x.localeCompare(y) <= 0`): by date first, then by time.
   */
  function NoteOrder(le: (string, string) -> bool): (Note, Note) -> bool {
    (a: Note, b: Note) =>
      var da, db := DateOrEmpty(a), DateOrEmpty(b);
      (le(da, db) && !le(db, da)) || (le(da, db) && le(db, da) && le(TimeOrEmpty(a), TimeOrEmpty(b)))
  }

  /** A consistent string order gives a consistent note order. */
  lemma {:induction false} NoteOrderTotalPreorder(le: (string, string) -> bool)
    requires TotalPreorder(le)
    ensures TotalPreorder(NoteOrder(le))
  {
    var o := NoteOrder(le);
    forall a: Note, b: Note
      ensures o(a, b) || o(b, a)
    {
      assert le(TimeOrEmpty(a), TimeOrEmpty(b)) || le(TimeOrEmpty(b), TimeOrEmpty(a));
      assert le(DateOrEmpty(a), DateOrEmpty(b)) || le(DateOrEmpty(b), DateOrEmpty(a));
    }
    forall a: Note, b: Note, c: Note | o(a, b) && o(b, c)
      ensures o(a, c)
    {
      var da, db, dc := DateOrEmpty(a), DateOrEmpty(b), DateOrEmpty(c);
      assert le(da, db) && le(db, dc);
      assert le(da, dc);
      if le(dc, da) {
        assert le(db, da) && le(dc, db);
        assert le(TimeOrEmpty(a), TimeOrEmpty(b)) && le(TimeOrEmpty(b), TimeOrEmpty(c));
      }
    }
  }

  /** `timelineNotes`: the notes with a time, sorted by date and then time. */
  function TimelineNotes(notes: seq<Note>, le: (string, string) -> bool): seq<Note> {
    SortBy(Filter(notes, HasTime), NoteOrder(le))
  }

  /** The timeline holds exactly the timed notes, each as often as the notes hold it, in date-then-time order. */
  lemma {:induction false} TimelineNotesSpec(notes: seq<Note>, le: (string, string) -> bool)
    requires TotalPreorder(le)
    ensures var r := TimelineNotes(notes, le);
      Sorted(r, NoteOrder(le))
      && (forall n: Note :: multiset(r)[n] == if HasTime(n) then multiset(notes)[n] else 0)
      && (forall i :: 0 <= i < |r| ==> HasTime(r[i]))
  {
    var r := TimelineNotes(notes, le);
    NoteOrderTotalPreorder(le);
    SortBySorted(Filter(notes, HasTime), NoteOrder(le));
    forall n: Note
      ensures multiset(r)[n] == if HasTime(n) then multiset(notes)[n] else 0
    {
      FilterCount(notes, HasTime, n);
    }
    forall i | 0 <= i < |r|
      ensures HasTime(r[i])
    {
      assert r[i] in multiset(r);
    }
  }

  /**
   * Inside the bucket of a real date the notes are in time order. The
   * undated bucket gets no such promise: it also collects notes dated
   * '日付不明', which the sort placed among the other dates.
   */
  lemma {:induction false} DatedBucketInTimeOrder(notes: seq<Note>, le: (string, string) -> bool, k: string)
    requires TotalPreorder(le)
    requires k in GroupBy(TimelineNotes(notes, le), DateKey) && k != UnknownDate
    ensures var b := GroupBy(TimelineNotes(notes, le), DateKey)[k];
      forall i, j :: 0 <= i < j < |b| ==> le(TimeOrEmpty(b[i]), TimeOrEmpty(b[j]))
  {
    var t := TimelineNotes(notes, le);
    TimelineNotesSpec(notes, le);
    GroupByBucket(t, DateKey, k);
    FilterSorted(t, KeyIs(DateKey, k), NoteOrder(le));
    var b := GroupBy(t, DateKey)[k];
    forall i, j | 0 <= i < j < |b|
      ensures le(TimeOrEmpty(b[i]), TimeOrEmpty(b[j]))
    {
      assert NoteOrder(le)(b[i], b[j]);
      assert DateKey(b[i]) == k && DateKey(b[j]) == k;
      assert DateOrEmpty(b[i]) == k && DateOrEmpty(b[j]) == k;
      assert le(k, k);
    }
  }

  /** The component's state, with `quickTimes` and `quickDates` as the time and date registries. */
  class App {
    var notes: seq<Note>
    var characters: seq<NamedTag>
    var places: seq<NamedTag>
    var quickTimes: seq<string>
    var quickDates: seq<string>
    var newNote: string
    var newCharacterText: string
    var newPlaceText: string
    var newTimeText: string
    var newDateText: string
    var newTagColor: string
    var editingNote: Option<int>
    var editNoteContent: string
    var editingTagId: Option<int>
    var editingTagType: Option<TagKind>
    var editTagText: string
    var editTagColor: string

    constructor ()
      ensures notes == [] && characters == [] && places == [] && quickTimes == [] && quickDates == []
      ensures newNote == "" && newCharacterText == "" && newPlaceText == "" && newTimeText == "" && newDateText == ""
      ensures newTagColor == "#000000" && editingNote == None && editNoteContent == ""
      ensures editingTagId == None && editingTagType == None && editTagText == "" && editTagColor == ""
    {
      notes, characters, places, quickTimes, quickDates := [], [], [], [], [];
      newNote, newCharacterText, newPlaceText, newTimeText, newDateText := "", "", "", "", "";
      newTagColor := "#000000";
      editingNote, editNoteContent := None, "";
      editingTagId, editingTagType, editTagText, editTagColor := None, None, "", "";
    }

    /** No registry other than the one of kind `k` changed. */
    twostate predicate OnlyRegistry(k: TagKind)
      reads this
    {
      (k != Character ==> characters == old(characters))
      && (k != Place ==> places == old(places))
      && (k != Time ==> quickTimes == old(quickTimes))
      && (k != Date ==> quickDates == old(quickDates))
    }

    /** No registry changed. */
    twostate predicate RegistriesKept()
      reads this
    {
      characters == old(characters) && places == old(places) && quickTimes == old(quickTimes) && quickDates == old(quickDates)
    }

    /** The note input, the four tag inputs and the shared colour picker are as they were. */
    twostate predicate InputsKept()
      reads this
    {
      newNote == old(newNote) && newCharacterText == old(newCharacterText) && newPlaceText == old(newPlaceText)
      && newTimeText == old(newTimeText) && newDateText == old(newDateText) && newTagColor == old(newTagColor)
    }

    /** The note being edited and its edit buffer are as they were. */
    twostate predicate NoteEditKept()
      reads this
    {
      editingNote == old(editingNote) && editNoteContent == old(editNoteContent)
    }

    /** The tag editing slot (id, kind, text and colour) is as it was. */
    twostate predicate TagEditKept()
      reads this
    {
      editingTagId == old(editingTagId) && editingTagType == old(editingTagType)
      && editTagText == old(editTagText) && editTagColor == old(editTagColor)
    }

    /** Blank input is refused and kept; otherwise one note is appended and the input cleared. */
    method AddNote(id: int, createdAt: string)
      modifies this
      ensures notes == Added(old(notes), old(newNote), id, createdAt)
      ensures newNote == if IsBlank(old(newNote)) then old(newNote) else ""
      ensures newCharacterText == old(newCharacterText) && newPlaceText == old(newPlaceText)
      ensures newTimeText == old(newTimeText) && newDateText == old(newDateText) && newTagColor == old(newTagColor)
      ensures RegistriesKept() && NoteEditKept() && TagEditKept()
    {
      if IsBlank(newNote) {
        return;
      }
      notes := notes + [NewNote(id, newNote, createdAt)];
      newNote := "";
    }

    method HandleKeyDown(e: KeyEvent, id: int, createdAt: string)
      modifies this
      ensures SubmitsOnEnter(e) ==> notes == Added(old(notes), old(newNote), id, createdAt)
      ensures SubmitsOnEnter(e) ==> newNote == if IsBlank(old(newNote)) then old(newNote) else ""
      ensures !SubmitsOnEnter(e) ==> notes == old(notes) && newNote == old(newNote)
      ensures newCharacterText == old(newCharacterText) && newPlaceText == old(newPlaceText)
      ensures newTimeText == old(newTimeText) && newDateText == old(newDateText) && newTagColor == old(newTagColor)
      ensures RegistriesKept() && NoteEditKept() && TagEditKept()
    {
      if SubmitsOnEnter(e) {
        AddNote(id, createdAt);
      }
    }

    /**
     * An empty payload is ignored; a payload that does not parse throws
     * (`ok` is false) before anything changes; otherwise the field of the
     * tag's kind is toggled on the target note.
     */
    method HandleDrop(payload: string, noteId: int) returns (ok: bool)
      modifies this
      ensures ok <==> payload == "" || Decode(payload).Some?
      ensures payload != "" && Decode(payload).Some? ==>
        notes == WithToggled(old(notes), noteId, Decode(payload).value.kind, Decode(payload).value.text)
      ensures payload == "" || Decode(payload).None? ==> notes == old(notes)
      ensures RegistriesKept() && InputsKept() && NoteEditKept() && TagEditKept()
    {
      if payload == "" {
        return true;
      }
      var tag := Decode(payload);
      if tag.None? {
        return false;
      }
      notes := ComputeMap(notes, ToggleIf(noteId, tag.value.kind, tag.value.text));
      return true;
    }

    method RemoveTag(noteId: int, k: TagKind)
      modifies this
      ensures notes == WithTag(old(notes), noteId, k, None)
      ensures RegistriesKept() && InputsKept() && NoteEditKept() && TagEditKept()
    {
      notes := ComputeMap(notes, TagIf(noteId, k, None));
    }

    method DeleteNote(noteId: int)
      modifies this
      ensures notes == WithoutNote(old(notes), noteId)
      ensures RegistriesKept() && InputsKept() && NoteEditKept() && TagEditKept()
    {
      notes := ComputeFilter(notes, KeepOther(noteId));
    }

    /** The first character with the name, or black. */
    function GetCharacterColor(name: string): (c: string)
      reads this
      ensures c == ColorOf(characters, name)
    {
      match Find(characters, HasName(name))
      case Some(t) => t.color
      case None => UnknownColor
    }

    /** The first place with the name, or black. */
    function GetPlaceColor(name: string): (c: string)
      reads this
      ensures c == ColorOf(places, name)
    {
      match Find(places, HasName(name))
      case Some(t) => t.color
      case None => UnknownColor
    }

    /** The `reduce` that buckets `timelineNotes` by date. */
    method GroupedByDate(le: (string, string) -> bool) returns (g: map<string, seq<Note>>, ok: bool)
      ensures ok <==> OwnKeys(TimelineNotes(notes, le), DateKey)
      ensures ok ==> g == GroupBy(TimelineNotes(notes, le), DateKey)
    {
      g, ok := ComputeGroupBy(TimelineNotes(notes, le), DateKey);
    }

    /** The colour is taken only when one is passed and it is not empty (`if (color)`). */
    method StartEditingTag(id: int, kind: TagKind, text: string, color: Option<string>)
      modifies this
      ensures editingTagId == Some(id) && editingTagType == Some(kind) && editTagText == text
      ensures editTagColor == if color.Some? && color.value != "" then color.value else old(editTagColor)
      ensures notes == old(notes) && RegistriesKept() && InputsKept() && NoteEditKept()
    {
      editingTagId := Some(id);
      editingTagType := Some(kind);
      editTagText := text;
      if color.Some? && color.value != "" {
        editTagColor := color.value;
      }
    }

    /** The registry of kind `k` and the notes after entry `id` was renamed to `text` (colour `color` for named kinds). */
    twostate predicate EditedAs(k: TagKind, id: int, text: string, color: string)
      reads this
    {
      OnlyRegistry(k)
      && match k
         case Character =>
           characters == Updated(old(characters), id, text, color)
           && notes == AfterRename(old(notes), k, OldName(old(characters), id), text)
         case Place =>
           places == Updated(old(places), id, text, color)
           && notes == AfterRename(old(notes), k, OldName(old(places), id), text)
         case Time =>
           quickTimes == ReplaceAt(old(quickTimes), id, text)
           && notes == AfterRename(old(notes), k, OldLabel(old(quickTimes), id), text)
         case Date =>
           quickDates == ReplaceAt(old(quickDates), id, text)
           && notes == AfterRename(old(notes), k, OldLabel(old(quickDates), id), text)
    }

    /** The state `saveTagEdit` leaves: nothing without a kind, an id and non-blank text; else the edit applied and edit mode left. */
    twostate predicate SavedEdit()
      reads this
    {
      if old(editingTagType).None? || old(editingTagId).None? || IsBlank(old(editTagText)) then
        notes == old(notes) && RegistriesKept() && TagEditKept() && InputsKept() && NoteEditKept()
      else
        editingTagId == None && editingTagType == None && editTagText == "" && editTagColor == old(editTagColor)
        && EditedAs(old(editingTagType).value, old(editingTagId).value, old(editTagText), old(editTagColor))
        && InputsKept() && NoteEditKept()
    }

    method SaveCharacterEdit(id: int, text: string, color: string)
      modifies this
      ensures EditedAs(Character, id, text, color)
      ensures TagEditKept() && InputsKept() && NoteEditKept()
    {
      var oldName := OldName(characters, id);
      characters := ComputeMap(characters, UpdateIf(id, text, color));
      if oldName != "" {
        notes := ComputeMap(notes, RenameIf(Character, oldName, text));
      }
    }

    method SavePlaceEdit(id: int, text: string, color: string)
      modifies this
      ensures EditedAs(Place, id, text, color)
      ensures TagEditKept() && InputsKept() && NoteEditKept()
    {
      var oldName := OldName(places, id);
      places := ComputeMap(places, UpdateIf(id, text, color));
      if oldName != "" {
        notes := ComputeMap(notes, RenameIf(Place, oldName, text));
      }
    }

    method SaveTimeEdit(id: int, text: string, color: string)
      modifies this
      ensures EditedAs(Time, id, text, color)
      ensures TagEditKept() && InputsKept() && NoteEditKept()
    {
      var oldName := OldLabel(quickTimes, id);
      quickTimes := ReplaceAt(quickTimes, id, text);
      if oldName != "" {
        notes := ComputeMap(notes, RenameIf(Time, oldName, text));
      }
    }

    method SaveDateEdit(id: int, text: string, color: string)
      modifies this
      ensures EditedAs(Date, id, text, color)
      ensures TagEditKept() && InputsKept() && NoteEditKept()
    {
      var oldName := OldLabel(quickDates, id);
      quickDates := ReplaceAt(quickDates, id, text);
      if oldName != "" {
        notes := ComputeMap(notes, RenameIf(Date, oldName, text));
      }
    }

    method SaveTagEdit()
      modifies this
      ensures SavedEdit()
    {
      if editingTagType.None? || editingTagId.None? || IsBlank(editTagText) {
        return;
      }
      var id, text, color := editingTagId.value, editTagText, editTagColor;
      match editingTagType.value {
        case Character => SaveCharacterEdit(id, text, color);
        case Place => SavePlaceEdit(id, text, color);
        case Time => SaveTimeEdit(id, text, color);
        case Date => SaveDateEdit(id, text, color);
      }
      editingTagId := None;
      editingTagType := None;
      editTagText := "";
    }

    /** `deleteTag(id, type)`: the registry of that kind loses the entry and the notes drop their references to it. */
    method DeleteTag(id: int, kind: TagKind)
      modifies this
      ensures OnlyRegistry(kind) && TagEditKept() && InputsKept() && NoteEditKept()
      ensures kind == Character ==>
        characters == WithoutTag(old(characters), id) && notes == Cleared(old(notes), kind, RemovedName(old(characters), id))
      ensures kind == Place ==>
        places == WithoutTag(old(places), id) && notes == Cleared(old(notes), kind, RemovedName(old(places), id))
      ensures kind == Time ==>
        quickTimes == RemoveAt(old(quickTimes), id) && notes == Cleared(old(notes), kind, LabelAt(old(quickTimes), id))
      ensures kind == Date ==>
        quickDates == RemoveAt(old(quickDates), id) && notes == Cleared(old(notes), kind, LabelAt(old(quickDates), id))
    {
      match kind {
        case Character =>
          var name := RemovedName(characters, id);
          characters := ComputeFilter(characters, OtherId(id));
          notes := ComputeMap(notes, ClearIf(Character, name));
        case Place =>
          var name := RemovedName(places, id);
          places := ComputeFilter(places, OtherId(id));
          notes := ComputeMap(notes, ClearIf(Place, name));
        case Time =>
          var value := LabelAt(quickTimes, id);
          quickTimes := RemoveAt(quickTimes, id);
          notes := ComputeMap(notes, ClearIf(Time, value));
        case Date =>
          var value := LabelAt(quickDates, id);
          quickDates := RemoveAt(quickDates, id);
          notes := ComputeMap(notes, ClearIf(Date, value));
      }
    }

    /** Any Enter saves, Escape clears the edited id and kind. */
    method HandleTagEditKeyDown(e: KeyEvent)
      modifies this
      ensures e.key == "Enter" ==> SavedEdit()
      ensures IsEscape(e) ==> editingTagId == None && editingTagType == None
      ensures e.key != "Enter" && !IsEscape(e) ==> editingTagId == old(editingTagId) && editingTagType == old(editingTagType)
      ensures e.key != "Enter" ==> notes == old(notes) && RegistriesKept() && editTagText == old(editTagText)
      ensures editTagColor == old(editTagColor) && InputsKept() && NoteEditKept()
    {
      if e.key == "Enter" {
        SaveTagEdit();
      }
      if IsEscape(e) {
        editingTagId := None;
        editingTagType := None;
      }
    }

    method AddCharacter(id: int)
      modifies this
      ensures characters == AppendedTag(old(characters), id, old(newCharacterText), newTagColor)
      ensures newCharacterText == if IsBlank(old(newCharacterText)) then old(newCharacterText) else ""
      ensures notes == old(notes) && OnlyRegistry(Character) && newTagColor == old(newTagColor)
      ensures newNote == old(newNote) && newPlaceText == old(newPlaceText)
      ensures newTimeText == old(newTimeText) && newDateText == old(newDateText)
      ensures NoteEditKept() && TagEditKept()
    {
      if IsBlank(newCharacterText) {
        return;
      }
      characters := characters + [NamedTag(id, newCharacterText, newTagColor)];
      newCharacterText := "";
    }

    method AddPlace(id: int)
      modifies this
      ensures places == AppendedTag(old(places), id, old(newPlaceText), newTagColor)
      ensures newPlaceText == if IsBlank(old(newPlaceText)) then old(newPlaceText) else ""
      ensures notes == old(notes) && OnlyRegistry(Place) && newTagColor == old(newTagColor)
      ensures newNote == old(newNote) && newCharacterText == old(newCharacterText)
      ensures newTimeText == old(newTimeText) && newDateText == old(newDateText)
      ensures NoteEditKept() && TagEditKept()
    {
      if IsBlank(newPlaceText) {
        return;
      }
      places := places + [NamedTag(id, newPlaceText, newTagColor)];
      newPlaceText := "";
    }

    method AddTime()
      modifies this
      ensures quickTimes == AppendedLabel(old(quickTimes), old(newTimeText))
      ensures newTimeText == if CanAddLabel(old(quickTimes), old(newTimeText)) then "" else old(newTimeText)
      ensures notes == old(notes) && OnlyRegistry(Time) && newTagColor == old(newTagColor)
      ensures newNote == old(newNote) && newCharacterText == old(newCharacterText)
      ensures newPlaceText == old(newPlaceText) && newDateText == old(newDateText)
      ensures NoteEditKept() && TagEditKept()
    {
      if IsBlank(newTimeText) || newTimeText in quickTimes {
        return;
      }
      quickTimes := quickTimes + [newTimeText];
      newTimeText := "";
    }

    method AddDate()
      modifies this
      ensures quickDates == AppendedLabel(old(quickDates), old(newDateText))
      ensures newDateText == if CanAddLabel(old(quickDates), old(newDateText)) then "" else old(newDateText)
      ensures notes == old(notes) && OnlyRegistry(Date) && newTagColor == old(newTagColor)
      ensures newNote == old(newNote) && newCharacterText == old(newCharacterText)
      ensures newPlaceText == old(newPlaceText) && newTimeText == old(newTimeText)
      ensures NoteEditKept() && TagEditKept()
    {
      if IsBlank(newDateText) || newDateText in quickDates {
        return;
      }
      quickDates := quickDates + [newDateText];
      newDateText := "";
    }

    /** Double-click: edit this note, starting from its current content. */
    method StartEdit(note: Note)
      modifies this
      ensures editingNote == Some(note.id) && editNoteContent == note.content
      ensures notes == old(notes) && RegistriesKept() && InputsKept() && TagEditKept()
    {
      editingNote := Some(note.id);
      editNoteContent := note.content;
    }

    /** Blur, or Enter without Shift: write the edited content and leave edit mode. */
    method CommitEdit(noteId: int)
      modifies this
      ensures notes == WithContent(old(notes), noteId, old(editNoteContent)) && editingNote == None
      ensures editNoteContent == old(editNoteContent) && RegistriesKept() && InputsKept() && TagEditKept()
    {
      notes := ComputeMap(notes, EditIf(noteId, editNoteContent));
      editingNote := None;
    }

    method HandleNoteEditKeyDown(e: KeyEvent, noteId: int)
      modifies this
      ensures e.key == "Enter" && !e.shiftKey ==> notes == WithContent(old(notes), noteId, old(editNoteContent))
      ensures !(e.key == "Enter" && !e.shiftKey) ==> notes == old(notes)
      ensures (e.key == "Enter" && !e.shiftKey) || IsEscape(e) ==> editingNote == None
      ensures !(e.key == "Enter" && !e.shiftKey) && !IsEscape(e) ==> editingNote == old(editingNote)
      ensures editNoteContent == old(editNoteContent) && RegistriesKept() && InputsKept() && TagEditKept()
    {
      if e.key == "Enter" && !e.shiftKey {
        CommitEdit(noteId);
      }
      if IsEscape(e) {
        editingNote := None;
      }
    }
  }
}
