/**
 * The cascade every tag editor performs after changing a registry: notes
 * refer to tags by text, so a rename rewrites the matching reference fields
 * and a delete nulls them. The character, place, time and date hooks,
 * src/feature/tag-manager/TagManager.tsx and the legacy src/App.tsx all use
 * these passes.
 */
module Cascade {
  import opened Wrappers
  import opened Notes
  import opened TagStore
  import Seqs

  /** `note[k] === from ? { ...note, [k]: to } : note` */
  function RenameIf(k: TagKind, from: string, to: string): Note -> Note {
    (n: Note) => if FieldOf(n, k) == Some(from) then SetField(n, k, Some(to)) else n
  }

  /**
   * `note[k] === name ? { ...note, [k]: null } : note`, where `name` may be
   * `undefined`, which equals no field (a field is a string or null).
   */
  function ClearIf(k: TagKind, name: Option<string>): Note -> Note {
    (n: Note) => if name.Some? && FieldOf(n, k) == name then SetField(n, k, None) else n
  }

  function Renamed(notes: seq<Note>, k: TagKind, from: string, to: string): seq<Note> {
    Seqs.Map(notes, RenameIf(k, from, to))
  }

  function Cleared(notes: seq<Note>, k: TagKind, name: Option<string>): seq<Note> {
    Seqs.Map(notes, ClearIf(k, name))
  }

  /** The note side of a save: `if (oldName) setNotes(notes.map(...))`. */
  function AfterRename(notes: seq<Note>, k: TagKind, oldName: string, text: string): seq<Note> {
    if oldName != "" then Renamed(notes, k, oldName, text) else notes
  }

  /** Every reference of kind `k` is null or one of `names`: the registry invariant of the notes. */
  predicate RefsIn(notes: seq<Note>, k: TagKind, names: set<string>) {
    forall i :: 0 <= i < |notes| && FieldOf(notes[i], k).Some? ==> FieldOf(notes[i], k).value in names
  }

  /**
   * Rename cascade: every note that held `from` in field `k` now holds `to`,
   * none holds `from` any more (unless `from == to`), other notes are
   * unchanged, and no other field, id or content changes.
   */
  lemma RenameCascade(notes: seq<Note>, k: TagKind, from: string, to: string)
    ensures var r := Renamed(notes, k, from, to);
      |r| == |notes|
      && (forall i :: 0 <= i < |r| && FieldOf(notes[i], k) == Some(from) ==> FieldOf(r[i], k) == Some(to))
      && (forall i :: 0 <= i < |r| && FieldOf(notes[i], k) != Some(from) ==> r[i] == notes[i])
      && (from != to ==> forall i :: 0 <= i < |r| ==> FieldOf(r[i], k) != Some(from))
      && (forall i, j :: 0 <= i < |r| && j != k ==> FieldOf(r[i], j) == FieldOf(notes[i], j))
      && (forall i :: 0 <= i < |r| ==>
            r[i].id == notes[i].id && r[i].content == notes[i].content && r[i].createdAt == notes[i].createdAt)
  {
  }

  /**
   * Delete cascade: a note holding the removed name in field `k` has that
   * field nulled, no other field changes, and an `undefined` name changes
   * nothing.
   */
  lemma ClearCascade(notes: seq<Note>, k: TagKind, name: Option<string>)
    ensures var r := Cleared(notes, k, name);
      |r| == |notes|
      && (name.Some? ==> forall i :: 0 <= i < |r| ==> FieldOf(r[i], k) != name)
      && (name.Some? ==> forall i :: 0 <= i < |r| && FieldOf(notes[i], k) == name ==> FieldOf(r[i], k) == None)
      && (name.None? ==> r == notes)
      && (forall i :: 0 <= i < |r| && FieldOf(notes[i], k) != name ==> r[i] == notes[i])
      && (forall i, j :: 0 <= i < |r| && j != k ==> FieldOf(r[i], j) == FieldOf(notes[i], j))
      && (forall i :: 0 <= i < |r| ==>
            r[i].id == notes[i].id && r[i].content == notes[i].content && r[i].createdAt == notes[i].createdAt)
  {
  }

  /** A save whose id no tag carries changes neither the registry nor any note. */
  lemma SaveUnknownNamedIsNoop(tags: seq<NamedTag>, notes: seq<Note>, k: TagKind, id: int, text: string, color: string)
    requires forall i :: 0 <= i < |tags| ==> tags[i].id != id
    ensures Updated(tags, id, text, color) == tags
    ensures AfterRename(notes, k, OldName(tags, id), text) == notes
  {
    assert Seqs.FirstIndex(tags, HasId(id)).None?;
  }

  /** With unique ids, the tag found by id is the one at its index. */
  lemma FoundAt(tags: seq<NamedTag>, id: int, j: nat)
    requires UniqueIds(tags) && j < |tags| && tags[j].id == id
    ensures FindById(tags, id) == Some(tags[j])
  {
    var r := Seqs.FirstIndex(tags, HasId(id));
    assert r.Some?;
    assert r.value == j;
  }

  /**
   * A character or place save keeps the notes consistent with the registry:
   * if every reference named a live tag before, every reference names a live
   * tag after, given unique ids and no empty names. Saves and deletes keep
   * both (`UpdatedKeeps`, `WithoutTagKeeps`); an add keeps ids unique only
   * when the id it is handed is fresh (`AppendedTagKeeps`), which this
   * model takes as a hypothesis about the ids passed in.
   */
  lemma SaveNamedKeepsRefs(tags: seq<NamedTag>, notes: seq<Note>, k: TagKind, id: int, text: string, color: string)
    requires UniqueIds(tags) && NoEmptyNames(tags) && RefsIn(notes, k, Names(tags))
    ensures RefsIn(AfterRename(notes, k, OldName(tags, id), text), k, Names(Updated(tags, id, text, color)))
  {
    var from := OldName(tags, id);
    var tags' := Updated(tags, id, text, color);
    var r := AfterRename(notes, k, from, text);
    forall i | 0 <= i < |r| && FieldOf(r[i], k).Some?
      ensures FieldOf(r[i], k).value in Names(tags')
    {
      if from != "" && FieldOf(notes[i], k) == Some(from) {
        var j :| 0 <= j < |tags| && tags[j].id == id;
        assert tags'[j].name == text;
      } else {
        assert r[i] == notes[i];
        var m := FieldOf(notes[i], k).value;
        var j :| 0 <= j < |tags| && tags[j].name == m;
        if tags[j].id == id {
          FoundAt(tags, id, j);
          assert false;
        }
        assert tags'[j] == tags[j];
      }
    }
  }

  /** A character or place delete keeps every remaining reference pointing at a live tag. */
  lemma DeleteNamedKeepsRefs(tags: seq<NamedTag>, notes: seq<Note>, k: TagKind, id: int)
    requires UniqueIds(tags) && RefsIn(notes, k, Names(tags))
    ensures RefsIn(Cleared(notes, k, RemovedName(tags, id)), k, Names(WithoutTag(tags, id)))
  {
    var name := RemovedName(tags, id);
    var r := Cleared(notes, k, name);
    var tags' := WithoutTag(tags, id);
    forall i | 0 <= i < |r| && FieldOf(r[i], k).Some?
      ensures FieldOf(r[i], k).value in Names(tags')
    {
      assert FieldOf(notes[i], k) != name && r[i] == notes[i];
      var m := FieldOf(notes[i], k).value;
      var j :| 0 <= j < |tags| && tags[j].name == m;
      if tags[j].id == id {
        FoundAt(tags, id, j);
        assert false;
      }
      assert tags[j] in tags';
      var j' :| 0 <= j' < |tags'| && tags'[j'] == tags[j];
    }
  }

  /** A time or date save keeps every reference naming a live label, given no empty labels. */
  lemma SaveLabelKeepsRefs(labels: seq<string>, notes: seq<Note>, k: TagKind, i: int, text: string)
    requires NoEmptyLabels(labels)
    requires RefsIn(notes, k, set j | 0 <= j < |labels| :: labels[j])
    ensures var labels' := ReplaceAt(labels, i, text);
      RefsIn(AfterRename(notes, k, OldLabel(labels, i), text), k, set j | 0 <= j < |labels'| :: labels'[j])
  {
    var from := OldLabel(labels, i);
    var labels' := ReplaceAt(labels, i, text);
    var r := AfterRename(notes, k, from, text);
    forall n | 0 <= n < |r| && FieldOf(r[n], k).Some?
      ensures FieldOf(r[n], k).value in set j | 0 <= j < |labels'| :: labels'[j]
    {
      if from != "" && FieldOf(notes[n], k) == Some(from) {
        assert labels'[i] == text;
      } else {
        assert r[n] == notes[n];
        var m := FieldOf(notes[n], k).value;
        var j :| 0 <= j < |labels| && labels[j] == m;
        assert j != i;
        assert labels'[j] == m;
      }
    }
  }

  /** A time or date delete keeps every remaining reference naming a live label. */
  lemma DeleteLabelKeepsRefs(labels: seq<string>, notes: seq<Note>, k: TagKind, i: int)
    requires RefsIn(notes, k, set j | 0 <= j < |labels| :: labels[j])
    ensures var labels' := RemoveAt(labels, i);
      RefsIn(Cleared(notes, k, LabelAt(labels, i)), k, set j | 0 <= j < |labels'| :: labels'[j])
  {
    var name := LabelAt(labels, i);
    var labels' := RemoveAt(labels, i);
    var r := Cleared(notes, k, name);
    forall n | 0 <= n < |r| && FieldOf(r[n], k).Some?
      ensures FieldOf(r[n], k).value in set j | 0 <= j < |labels'| :: labels'[j]
    {
      assert FieldOf(notes[n], k) != name && r[n] == notes[n];
      var m := FieldOf(notes[n], k).value;
      var j :| 0 <= j < |labels| && labels[j] == m;
      if 0 <= i < |labels| {
        assert j != i;
        if j < i {
          assert labels'[j] == m;
        } else {
          assert labels'[j - 1] == m;
        }
      } else {
        assert labels'[j] == m;
      }
    }
  }
}
