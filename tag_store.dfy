/**
 * The tag registries. Characters and places (src/store/character-store.ts,
 * src/store/place-store.ts, identical apart from names) are `{id, name,
 * color}` records; time and date labels (src/store/time-store.ts,
 * src/store/date-store.ts) are plain strings identified by their position.
 */
module TagStore {
  import opened Wrappers
  import opened Text
  import Seqs

  /** What a colour lookup answers for a name no tag carries. */
  const UnknownColor := "#000000"

  /** A character or a place. */
  datatype NamedTag = NamedTag(id: int, name: string, color: string)

  function HasId(id: int): NamedTag -> bool {
    (t: NamedTag) => t.id == id
  }

  function OtherId(id: int): NamedTag -> bool {
    (t: NamedTag) => t.id != id
  }

  function HasName(name: string): NamedTag -> bool {
    (t: NamedTag) => t.name == name
  }

  /**
   * `getCharacterColor` / `getPlaceColor`: the colour of the first tag with
   * exactly this name, or black when there is none.
   */
  function ColorOf(tags: seq<NamedTag>, name: string): (c: string)
    ensures (forall i :: 0 <= i < |tags| ==> tags[i].name != name) ==> c == UnknownColor
    ensures forall i ::
      0 <= i < |tags| && tags[i].name == name && (forall j :: 0 <= j < i ==> tags[j].name != name) ==> c == tags[i].color
  {
    match Seqs.FirstIndex(tags, HasName(name))
    case None => UnknownColor
    case Some(i) => tags[i].color
  }

  function FindById(tags: seq<NamedTag>, id: int): Option<NamedTag> {
    Seqs.Find(tags, HasId(id))
  }

  /** `tags.find(t => t.id === id)?.name || ''`: the name a save cascades from. */
  function OldName(tags: seq<NamedTag>, id: int): string {
    match FindById(tags, id)
    case None => ""
    case Some(t) => t.name
  }

  /** `tags.find(t => t.id === id)?.name`: the name a delete clears, `None` for `undefined`. */
  function RemovedName(tags: seq<NamedTag>, id: int): Option<string> {
    match FindById(tags, id)
    case None => None
    case Some(t) => Some(t.name)
  }

  /** The per-tag step of a save: `t.id === id ? { ...t, name, color } : t`. */
  function UpdateIf(id: int, name: string, color: string): NamedTag -> NamedTag {
    (t: NamedTag) => if t.id == id then t.(name := name, color := color) else t
  }

  function Updated(tags: seq<NamedTag>, id: int, name: string, color: string): seq<NamedTag> {
    Seqs.Map(tags, UpdateIf(id, name, color))
  }

  function WithoutTag(tags: seq<NamedTag>, id: int): seq<NamedTag> {
    Seqs.Filter(tags, OtherId(id))
  }

  /** The inline add handler: a blank name is ignored, anything else is appended. */
  function AppendedTag(tags: seq<NamedTag>, id: int, name: string, color: string): seq<NamedTag> {
    if IsBlank(name) then tags else tags + [NamedTag(id, name, color)]
  }

  function Names(tags: seq<NamedTag>): set<string> {
    set i | 0 <= i < |tags| :: tags[i].name
  }

  predicate UniqueIds(tags: seq<NamedTag>) {
    forall i, j :: 0 <= i < j < |tags| ==> tags[i].id != tags[j].id
  }

  predicate NoEmptyNames(tags: seq<NamedTag>) {
    forall i :: 0 <= i < |tags| ==> tags[i].name != ""
  }

  /** No id in the registry is `id`: what an add needs of the id it is handed. */
  predicate FreshId(tags: seq<NamedTag>, id: int) {
    forall i :: 0 <= i < |tags| ==> tags[i].id != id
  }

  /** `!IsBlank` rules out the empty string, so handlers that refuse blank text never store `""`. */
  lemma NonBlankNonEmpty(s: string)
    ensures !IsBlank(s) ==> s != ""
  {
    assert Trim("") == "";
  }

  /**
   * The add handler keeps ids unique exactly when the id it is handed is
   * fresh (or the name is blank and nothing is added), and never stores an
   * empty name.
   */
  lemma AppendedTagKeeps(tags: seq<NamedTag>, id: int, name: string, color: string)
    ensures var r := AppendedTag(tags, id, name, color);
      (UniqueIds(tags) ==> (UniqueIds(r) <==> IsBlank(name) || FreshId(tags, id)))
      && (NoEmptyNames(tags) ==> NoEmptyNames(r))
  {
    NonBlankNonEmpty(name);
    var r := AppendedTag(tags, id, name, color);
    if !IsBlank(name) && UniqueIds(r) {
      forall i | 0 <= i < |tags|
        ensures tags[i].id != id
      {
        assert r[i] == tags[i] && r[|tags|].id == id;
      }
    }
  }

  /** A save keeps ids unique, and keeps every name non-empty when the new name is not blank. */
  lemma UpdatedKeeps(tags: seq<NamedTag>, id: int, name: string, color: string)
    ensures var r := Updated(tags, id, name, color);
      (UniqueIds(tags) ==> UniqueIds(r))
      && (NoEmptyNames(tags) && !IsBlank(name) ==> NoEmptyNames(r))
  {
    NonBlankNonEmpty(name);
  }

  /** Any filter of a registry with unique ids has unique ids. */
  lemma {:induction false} FilterKeepsUniqueIds(tags: seq<NamedTag>, p: NamedTag -> bool)
    requires UniqueIds(tags)
    ensures UniqueIds(Seqs.Filter(tags, p))
    decreases |tags|
  {
    if tags != [] {
      var init, last := tags[..|tags| - 1], tags[|tags| - 1];
      assert tags == init + [last];
      assert UniqueIds(init);
      FilterKeepsUniqueIds(init, p);
      var f := Seqs.Filter(init, p);
      forall i | 0 <= i < |f|
        ensures f[i].id != last.id
      {
        var j :| 0 <= j < |init| && init[j] == f[i];
        assert tags[j] == f[i];
      }
    }
  }

  /** A delete keeps ids unique and names non-empty. */
  lemma WithoutTagKeeps(tags: seq<NamedTag>, id: int)
    ensures var r := WithoutTag(tags, id);
      (UniqueIds(tags) ==> UniqueIds(r))
      && (NoEmptyNames(tags) ==> NoEmptyNames(r))
  {
    if UniqueIds(tags) {
      FilterKeepsUniqueIds(tags, OtherId(id));
    }
    var r := WithoutTag(tags, id);
    if NoEmptyNames(tags) {
      forall i | 0 <= i < |r|
        ensures r[i].name != ""
      {
        var j :| 0 <= j < |tags| && tags[j] == r[i];
      }
    }
  }

  /** A save touches only the tags with the edited id and leaves every other tag as it was. */
  lemma UpdatedSpec(tags: seq<NamedTag>, id: int, name: string, color: string)
    ensures var r := Updated(tags, id, name, color);
      |r| == |tags|
      && forall i :: 0 <= i < |r| ==>
        if tags[i].id == id then r[i] == NamedTag(id, name, color) else r[i] == tags[i]
  {
  }

  /** After a delete no tag has the id, and every other tag is still there, in order. */
  lemma WithoutTagSpec(tags: seq<NamedTag>, id: int)
    ensures var r := WithoutTag(tags, id);
      (forall i :: 0 <= i < |r| ==> r[i].id != id && r[i] in tags)
      && (forall i :: 0 <= i < |tags| && tags[i].id != id ==> tags[i] in r)
      && (forall a, b :: WithoutTag(a + b, id) == WithoutTag(a, id) + WithoutTag(b, id))
  {
    forall a, b ensures WithoutTag(a + b, id) == WithoutTag(a, id) + WithoutTag(b, id) {
      Seqs.FilterConcat(a, b, OtherId(id));
    }
  }

  /** `times[i]` / `dates[i]`, with `None` for `undefined` when the index is out of range. */
  function LabelAt(labels: seq<string>, i: int): Option<string> {
    if 0 <= i < |labels| then Some(labels[i]) else None
  }

  /** `times[i]` as the `if (oldName)` test of a save sees it: `undefined` is as falsy as `''`. */
  function OldLabel(labels: seq<string>, i: int): string {
    if 0 <= i < |labels| then labels[i] else ""
  }

  /** `labels.map((l, index) => index === i ? text : l)` */
  function ReplaceAt(labels: seq<string>, i: int, text: string): (r: seq<string>)
    ensures |r| == |labels|
    ensures forall j :: 0 <= j < |r| ==> r[j] == if j == i then text else labels[j]
  {
    if 0 <= i < |labels| then labels[i := text] else labels
  }

  /** `labels.filter((_, index) => index !== i)` */
  function RemoveAt(labels: seq<string>, i: int): (r: seq<string>)
    ensures 0 <= i < |labels| ==>
      |r| == |labels| - 1
      && (forall j :: 0 <= j < i ==> r[j] == labels[j])
      && (forall j :: i <= j < |r| ==> r[j] == labels[j + 1])
    ensures !(0 <= i < |labels|) ==> r == labels
  {
    if 0 <= i < |labels| then labels[..i] + labels[i + 1..] else labels
  }

  /** The time and date add handlers: reject blank text and exact duplicates. */
  predicate CanAddLabel(labels: seq<string>, text: string) {
    !IsBlank(text) && text !in labels
  }

  function AppendedLabel(labels: seq<string>, text: string): seq<string> {
    if CanAddLabel(labels, text) then labels + [text] else labels
  }

  predicate Distinct(labels: seq<string>) {
    forall i, j :: 0 <= i < j < |labels| ==> labels[i] != labels[j]
  }

  predicate NoEmptyLabels(labels: seq<string>) {
    forall i :: 0 <= i < |labels| ==> labels[i] != ""
  }

  /** Adding, saving non-blank text and deleting all keep every label non-empty. */
  lemma LabelsStayNonEmpty(labels: seq<string>, i: int, text: string)
    requires NoEmptyLabels(labels)
    ensures NoEmptyLabels(AppendedLabel(labels, text))
    ensures !IsBlank(text) ==> NoEmptyLabels(ReplaceAt(labels, i, text))
    ensures NoEmptyLabels(RemoveAt(labels, i))
  {
    NonBlankNonEmpty(text);
  }

  /** The add handler never creates a duplicate label, and appends without sorting. */
  lemma AppendedLabelSpec(labels: seq<string>, text: string)
    ensures var r := AppendedLabel(labels, text);
      (Distinct(labels) ==> Distinct(r))
      && (CanAddLabel(labels, text) ==> r == labels + [text])
      && (!CanAddLabel(labels, text) ==> r == labels)
  {
  }

  /** The character store or the place store. */
  class NamedTagStore {
    var tags: seq<NamedTag>

    constructor ()
      ensures tags == []
    {
      tags := [];
    }

    /** `setCharacters` / `setPlaces`: the list is replaced wholesale. */
    method SetTags(ts: seq<NamedTag>)
      modifies this
      ensures tags == ts
    {
      tags := ts;
    }

    /**
     * `getCharacterColor` / `getPlaceColor`; a function, so it cannot change
     * the store. What the lookup answers is the contract of `ColorOf`.
     */
    function GetColor(name: string): (c: string)
      reads this
      ensures c == ColorOf(tags, name)
    {
      ColorOf(tags, name)
    }
  }

  /** The time store or the date store. */
  class LabelStore {
    var labels: seq<string>

    constructor ()
      ensures labels == []
    {
      labels := [];
    }

    /** `setTimes` / `setDates` */
    method SetLabels(ls: seq<string>)
      modifies this
      ensures labels == ls
    {
      labels := ls;
    }
  }
}
