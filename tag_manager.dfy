/**
 * The combined tag manager (src/feature/tag-manager/TagManager.tsx): one
 * component that edits all four registries with a single editing slot
 * tagged by kind. Its save and delete do what the per-kind hooks do; its
 * edit field saves on any Enter, without the Shift and IME checks of the
 * per-kind editors.
 */
module TagManagerPanel {
  import opened Wrappers
  import opened Text
  import opened Notes
  import opened TagStore
  import opened Keyboard
  import opened TagEditing

  class TagManager {
    var newCharacterText: string
    var newPlaceText: string
    var newTimeText: string
    var newDateText: string
    var newTagColor: string
    var editingTagId: Option<int>
    var editingTagType: Option<TagKind>
    var editTagText: string
    var editTagColor: string

    constructor ()
      ensures newCharacterText == "" && newPlaceText == "" && newTimeText == "" && newDateText == ""
      ensures newTagColor == "#000000"
      ensures editingTagId == None && editingTagType == None && editTagText == "" && editTagColor == ""
    {
      newCharacterText := "";
      newPlaceText := "";
      newTimeText := "";
      newDateText := "";
      newTagColor := "#000000";
      editingTagId := None;
      editingTagType := None;
      editTagText := "";
      editTagColor := "";
    }

    /** The colour is taken only when one is passed and it is not empty (`if (color)`). */
    method StartEditingTag(id: int, kind: TagKind, text: string, color: Option<string>)
      modifies this
      ensures editingTagId == Some(id) && editingTagType == Some(kind) && editTagText == text
      ensures editTagColor == if color.Some? && color.value != "" then color.value else old(editTagColor)
      ensures newCharacterText == old(newCharacterText) && newPlaceText == old(newPlaceText)
      ensures newTimeText == old(newTimeText) && newDateText == old(newDateText) && newTagColor == old(newTagColor)
    {
      editingTagId := Some(id);
      editingTagType := Some(kind);
      editTagText := text;
      if color.Some? && color.value != "" {
        editTagColor := color.value;
      }
    }

    /** The state `saveTagEdit` leaves: only the registry of the edited kind and the notes change. */
    twostate predicate Saved(characters: NamedTagStore, places: NamedTagStore, times: LabelStore, dates: LabelStore, notes: NoteStore)
      reads this, characters, places, times, dates, notes
    {
      if old(editingTagType).None? || old(editingTagId).None? || IsBlank(old(editTagText)) then
        unchanged(characters, places, times, dates, notes)
        && editingTagId == old(editingTagId) && editingTagType == old(editingTagType) && editTagText == old(editTagText)
      else
        var id, text := old(editingTagId).value, old(editTagText);
        editingTagId == None && editingTagType == None && editTagText == ""
        && match old(editingTagType).value
           case Character => NamedSaved(characters, notes, Character, id, text, old(editTagColor)) && unchanged(places, times, dates)
           case Place => NamedSaved(places, notes, Place, id, text, old(editTagColor)) && unchanged(characters, times, dates)
           case Time => LabelSaved(times, notes, Time, id, text) && unchanged(characters, places, dates)
           case Date => LabelSaved(dates, notes, Date, id, text) && unchanged(characters, places, times)
    }

    method SaveTagEdit(characters: NamedTagStore, places: NamedTagStore, times: LabelStore, dates: LabelStore, notes: NoteStore)
      requires characters != places && times != dates
      modifies this, characters, places, times, dates, notes
      ensures Saved(characters, places, times, dates, notes)
      ensures editTagColor == old(editTagColor) && newTagColor == old(newTagColor)
      ensures newCharacterText == old(newCharacterText) && newPlaceText == old(newPlaceText)
      ensures newTimeText == old(newTimeText) && newDateText == old(newDateText)
    {
      if editingTagType.None? || editingTagId.None? || IsBlank(editTagText) {
        return;
      }
      var id := editingTagId.value;
      match editingTagType.value {
        case Character => SaveNamedTag(characters, notes, Character, id, editTagText, editTagColor);
        case Place => SaveNamedTag(places, notes, Place, id, editTagText, editTagColor);
        case Time => SaveLabel(times, notes, Time, id, editTagText);
        case Date => SaveLabel(dates, notes, Date, id, editTagText);
      }
      editingTagId := None;
      editingTagType := None;
      editTagText := "";
    }

    /** `deleteTag(id, type)`: the registry of that kind loses the tag and the notes drop their references to it. */
    method DeleteTag(id: int, kind: TagKind, characters: NamedTagStore, places: NamedTagStore, times: LabelStore, dates: LabelStore, notes: NoteStore)
      requires characters != places && times != dates
      modifies characters, places, times, dates, notes
      ensures kind == Character ==> NamedDeleted(characters, notes, Character, id) && unchanged(places, times, dates)
      ensures kind == Place ==> NamedDeleted(places, notes, Place, id) && unchanged(characters, times, dates)
      ensures kind == Time ==> LabelDeleted(times, notes, Time, id) && unchanged(characters, places, dates)
      ensures kind == Date ==> LabelDeleted(dates, notes, Date, id) && unchanged(characters, places, times)
    {
      match kind
      case Character => DeleteNamedTag(characters, notes, Character, id);
      case Place => DeleteNamedTag(places, notes, Place, id);
      case Time => DeleteLabel(times, notes, Time, id);
      case Date => DeleteLabel(dates, notes, Date, id);
    }

    method AddCharacter(characters: NamedTagStore, id: int)
      modifies this, characters
      ensures characters.tags == AppendedTag(old(characters.tags), id, old(newCharacterText), newTagColor)
      ensures newCharacterText == if IsBlank(old(newCharacterText)) then old(newCharacterText) else ""
      ensures newPlaceText == old(newPlaceText) && newTimeText == old(newTimeText) && newDateText == old(newDateText)
      ensures newTagColor == old(newTagColor) && editingTagId == old(editingTagId) && editingTagType == old(editingTagType)
      ensures editTagText == old(editTagText) && editTagColor == old(editTagColor)
    {
      var added := AppendNamedTag(characters, id, newCharacterText, newTagColor);
      if added {
        newCharacterText := "";
      }
    }

    /** Places are added with the same shared colour picker as characters. */
    method AddPlace(places: NamedTagStore, id: int)
      modifies this, places
      ensures places.tags == AppendedTag(old(places.tags), id, old(newPlaceText), newTagColor)
      ensures newPlaceText == if IsBlank(old(newPlaceText)) then old(newPlaceText) else ""
      ensures newCharacterText == old(newCharacterText) && newTimeText == old(newTimeText) && newDateText == old(newDateText)
      ensures newTagColor == old(newTagColor) && editingTagId == old(editingTagId) && editingTagType == old(editingTagType)
      ensures editTagText == old(editTagText) && editTagColor == old(editTagColor)
    {
      var added := AppendNamedTag(places, id, newPlaceText, newTagColor);
      if added {
        newPlaceText := "";
      }
    }

    method AddTime(times: LabelStore)
      modifies this, times
      ensures times.labels == AppendedLabel(old(times.labels), old(newTimeText))
      ensures newTimeText == if CanAddLabel(old(times.labels), old(newTimeText)) then "" else old(newTimeText)
      ensures newCharacterText == old(newCharacterText) && newPlaceText == old(newPlaceText) && newDateText == old(newDateText)
      ensures newTagColor == old(newTagColor) && editingTagId == old(editingTagId) && editingTagType == old(editingTagType)
      ensures editTagText == old(editTagText) && editTagColor == old(editTagColor)
    {
      var added := AppendLabel(times, newTimeText);
      if added {
        newTimeText := "";
      }
    }

    method AddDate(dates: LabelStore)
      modifies this, dates
      ensures dates.labels == AppendedLabel(old(dates.labels), old(newDateText))
      ensures newDateText == if CanAddLabel(old(dates.labels), old(newDateText)) then "" else old(newDateText)
      ensures newCharacterText == old(newCharacterText) && newPlaceText == old(newPlaceText) && newTimeText == old(newTimeText)
      ensures newTagColor == old(newTagColor) && editingTagId == old(editingTagId) && editingTagType == old(editingTagType)
      ensures editTagText == old(editTagText) && editTagColor == old(editTagColor)
    {
      var added := AppendLabel(dates, newDateText);
      if added {
        newDateText := "";
      }
    }

    /** The edit field of every kind: any Enter saves, Escape clears the slot and its kind. */
    method HandleEditKeyDown(e: KeyEvent, characters: NamedTagStore, places: NamedTagStore, times: LabelStore, dates: LabelStore, notes: NoteStore)
      requires characters != places && times != dates
      modifies this, characters, places, times, dates, notes
      ensures e.key == "Enter" ==> Saved(characters, places, times, dates, notes)
      ensures IsEscape(e) ==> editingTagId == None && editingTagType == None && unchanged(characters, places, times, dates, notes)
      ensures e.key != "Enter" && !IsEscape(e) ==>
        editingTagId == old(editingTagId) && editingTagType == old(editingTagType) && unchanged(characters, places, times, dates, notes)
      ensures e.key != "Enter" ==> editTagText == old(editTagText)
      ensures editTagColor == old(editTagColor) && newTagColor == old(newTagColor)
      ensures newCharacterText == old(newCharacterText) && newPlaceText == old(newPlaceText)
      ensures newTimeText == old(newTimeText) && newDateText == old(newDateText)
    {
      if e.key == "Enter" {
        SaveTagEdit(characters, places, times, dates, notes);
      }
      if IsEscape(e) {
        editingTagId := None;
        editingTagType := None;
      }
    }
  }
}
