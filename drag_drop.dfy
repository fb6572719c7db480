/**
 * Dragging a tag onto a note (src/hooks/use-drag-and-drop.ts). The drag
 * carries the tag as text in the drag event; the drop reads it back and
 * writes the tag's text into the note's field of that kind. The text
 * format here is a length-prefixed record rather than JSON: what the model
 * keeps is that the drop recovers exactly the tag that was dragged, and
 * that text which does not parse aborts the drop.
 */
module DragDrop {
  import opened Wrappers
  import opened Text
  import opened Notes

  /** The dragged `Tag`: `{ id, type, text, color? }`. */
  datatype DragTag = DragTag(id: nat, kind: TagKind, text: string, color: Option<string>)

  /** `TagKind` from a `type` string; anything else is not a tag. */
  function KindFromName(s: string): Option<TagKind> {
    if s == "character" then Some(Character)
    else if s == "place" then Some(Place)
    else if s == "time" then Some(Time)
    else if s == "date" then Some(Date)
    else None
  }

  /** The `type` string of a kind (`TAG_TYPES`). */
  function KindName(k: TagKind): (s: string)
    ensures KindFromName(s) == Some(k)
  {
    match k
    case Character => "character"
    case Place => "place"
    case Time => "time"
    case Date => "date"
  }

  /** A string as its decimal length, a colon, and its characters. */
  function Field(s: string): string {
    NatStr(|s|) + ":" + s
  }

  /** The drag payload: the id, then the kind, the text and the optional colour as fields. */
  function Encode(t: DragTag): string {
    NatStr(t.id) + ":" + Field(KindName(t.kind)) + Field(t.text)
    + (if t.color.Some? then Field(t.color.value) else "")
  }

  /** A decimal number terminated by a colon, and what follows the colon. */
  function ReadNat(s: string): Option<(nat, string)> {
    var n := DigitRun(s);
    if n == 0 || n == |s| || s[n] != ':' then None
    else Some((DigitsValue(s[..n]), s[n + 1..]))
  }

  /** A length-prefixed field, and what follows it. */
  function ReadField(s: string): Option<(string, string)> {
    match ReadNat(s)
    case None => None
    case Some((len, rest)) => if len <= |rest| then Some((rest[..len], rest[len..])) else None
  }

  /** The parse of a payload; `None` is the case where `JSON.parse` throws. */
  function Decode(s: string): Option<DragTag> {
    match ReadNat(s)
    case None => None
    case Some((id, r1)) =>
      match ReadField(r1)
      case None => None
      case Some((name, r2)) =>
        match KindFromName(name)
        case None => None
        case Some(kind) =>
          match ReadField(r2)
          case None => None
          case Some((text, r3)) =>
            if r3 == "" then Some(DragTag(id, kind, text, None))
            else
              match ReadField(r3)
              case None => None
              case Some((color, r4)) => if r4 == "" then Some(DragTag(id, kind, text, Some(color))) else None
  }

  lemma {:induction false} ReadNatOf(n: nat, rest: string)
    ensures ReadNat(NatStr(n) + ":" + rest) == Some((n, rest))
  {
    var x := NatStr(n);
    var s := x + ":" + rest;
    assert s == x + (":" + rest);
    DigitRunStops(x, ":" + rest);
    assert s[..|x|] == x && s[|x| + 1..] == rest;
    ParseNatStr(n);
  }

  lemma {:induction false} ReadFieldOf(x: string, rest: string)
    ensures ReadField(Field(x) + rest) == Some((x, rest))
  {
    assert Field(x) + rest == NatStr(|x|) + ":" + (x + rest);
    ReadNatOf(|x|, x + rest);
    assert (x + rest)[..|x|] == x && (x + rest)[|x|..] == rest;
  }

  /** The drop recovers exactly the tag the drag encoded. */
  lemma {:induction false} DecodeEncode(t: DragTag)
    ensures Decode(Encode(t)) == Some(t)
  {
    var tail := if t.color.Some? then Field(t.color.value) else "";
    var r2 := Field(t.text) + tail;
    var r1 := Field(KindName(t.kind)) + r2;
    assert Encode(t) == NatStr(t.id) + ":" + r1;
    ReadNatOf(t.id, r1);
    ReadFieldOf(KindName(t.kind), r2);
    ReadFieldOf(t.text, tail);
    if t.color.Some? {
      ReadFieldOf(t.color.value, "");
      assert Field(t.color.value) + "" == tail;
    }
  }

  /** Distinct tags are dragged as distinct payloads. */
  lemma {:induction false} EncodeInjective(a: DragTag, b: DragTag)
    ensures Encode(a) == Encode(b) ==> a == b
  {
    DecodeEncode(a);
    DecodeEncode(b);
  }

  /** The hook's two refs: the tag being dragged and the note under the cursor. */
  class DragAndDrop {
    var dragItem: Option<DragTag>
    var dragOverItem: Option<int>

    constructor ()
      ensures dragItem == None && dragOverItem == None
    {
      dragItem := None;
      dragOverItem := None;
    }

    /** Puts the encoded tag on the drag and remembers it. */
    method HandleDragStart(tag: DragTag) returns (payload: string)
      modifies this
      ensures payload == Encode(tag) && Decode(payload) == Some(tag)
      ensures dragItem == Some(tag) && dragOverItem == old(dragOverItem)
    {
      payload := Encode(tag);
      DecodeEncode(tag);
      dragItem := Some(tag);
    }

    method HandleDragEnd()
      modifies this
      ensures dragItem == None && dragOverItem == None
    {
      dragItem := None;
      dragOverItem := None;
    }

    method HandleDragOver(noteId: int)
      modifies this
      ensures dragOverItem == Some(noteId) && dragItem == old(dragItem)
    {
      dragOverItem := Some(noteId);
    }

    /**
     * Writes the dropped tag's text into the note's field of its kind
     * (`addTagToNote`) and clears both refs. `ok` is false where the
     * parse throws: then nothing after it runs, so the notes and the refs
     * are left as they were.
     */
    method HandleDrop(payload: string, noteId: int, store: NoteStore) returns (ok: bool)
      modifies this, store
      ensures ok <==> Decode(payload).Some?
      ensures ok ==> store.notes == WithTag(old(store.notes), noteId, Decode(payload).value.kind, Some(Decode(payload).value.text))
      ensures ok ==> dragItem == None && dragOverItem == None
      ensures !ok ==> store.notes == old(store.notes) && dragItem == old(dragItem) && dragOverItem == old(dragOverItem)
    {
      var tag := Decode(payload);
      if tag.None? {
        return false;
      }
      store.AddTagToNote(noteId, tag.value.kind, tag.value.text);
      dragItem := None;
      dragOverItem := None;
      return true;
    }
  }
}
