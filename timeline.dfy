/**
 * The timeline's grouping of notes: by date with the undated bucket
 * (src/feature/timeline/hooks.ts), and, inside a section, by place and then
 * by character (`groupNotesByPlace` in src/feature/timeline/Timeline.tsx).
 */
module Timeline {
  import opened Wrappers
  import opened Notes
  import opened Seqs
  import opened Grouping

  /** The bucket name for notes without a date. */
  const UnknownDate: string := "日付不明"

  /** The bucket name for notes without a place. */
  const UnknownPlace: string := "場所不明"

  /** `note.date || '日付不明'`: null and the empty string both fall back to the sentinel. */
  function DateKey(n: Note): string {
    if n.date.Some? && n.date.value != "" then n.date.value else UnknownDate
  }

  /** `note.place || '場所不明'` */
  function PlaceKey(n: Note): string {
    if n.place.Some? && n.place.value != "" then n.place.value else UnknownPlace
  }

  /** Every note is filed under its own date, a dated note under exactly that date, an undated one under the sentinel. */
  lemma {:induction false} DateGroups(notes: seq<Note>, i: int)
    requires 0 <= i < |notes|
    ensures var g := GroupBy(notes, DateKey);
      DateKey(notes[i]) in g && notes[i] in g[DateKey(notes[i])]
      && (notes[i].date.Some? && notes[i].date.value != "" ==> notes[i] in g[notes[i].date.value])
      && (notes[i].date.None? ==> notes[i] in g[UnknownDate])
      && forall k :: k in g && k != DateKey(notes[i]) ==> notes[i] !in g[k]
  {
    GroupByPartition(notes, DateKey, notes[i]);
  }

  /** A bucket holds exactly the notes whose date key is its name, in note order. */
  lemma {:induction false} DateBucket(notes: seq<Note>, k: string)
    requires k in GroupBy(notes, DateKey)
    ensures var b := GroupBy(notes, DateKey)[k];
      b == Filter(notes, KeyIs(DateKey, k))
      && |b| > 0 && forall j :: 0 <= j < |b| ==> DateKey(b[j]) == k && b[j] in notes
  {
    GroupByNonEmpty(notes, DateKey, k);
    GroupByBucket(notes, DateKey, k);
  }

  /**
   * The undated bucket is not reserved: a note whose date tag is literally
   * '日付不明' is filed together with the notes that have no date at all.
   */
  lemma {:induction false} SentinelCollision(notes: seq<Note>, i: int, j: int)
    requires 0 <= i < |notes| && 0 <= j < |notes|
    requires notes[i].date == None && notes[j].date == Some(UnknownDate)
    ensures UnknownDate in GroupBy(notes, DateKey)
    ensures notes[i] in GroupBy(notes, DateKey)[UnknownDate] && notes[j] in GroupBy(notes, DateKey)[UnknownDate]
  {
    DateGroups(notes, i);
    DateGroups(notes, j);
  }

  /** `{ character, notes }`: one character's section of the timeline. */
  datatype CharacterGroup = CharacterGroup(character: string, notes: seq<Note>)

  /** `PlaceNote`: a note together with the character section it was listed under. */
  datatype PlaceNote = PlaceNote(note: Note, characterName: string)

  function PlaceOf(pn: PlaceNote): string {
    PlaceKey(pn.note)
  }

  function CharacterOf(pn: PlaceNote): string {
    pn.characterName
  }

  function ListedUnder(character: string): Note -> PlaceNote {
    (n: Note) => PlaceNote(n, character)
  }

  /** The notes of all sections, each tagged with its section's character, in listing order. */
  function Flattened(groups: seq<CharacterGroup>): seq<PlaceNote>
    decreases |groups|
  {
    if groups == [] then []
    else
      var last := groups[|groups| - 1];
      Flattened(groups[..|groups| - 1]) + Map(last.notes, ListedUnder(last.character))
  }

  /** A tagged note occurs in the flattening exactly when some section of that character lists the note. */
  lemma {:induction false} FlattenedMembers(groups: seq<CharacterGroup>, pn: PlaceNote)
    ensures pn in Flattened(groups) <==>
      exists i :: 0 <= i < |groups| && groups[i].character == pn.characterName && pn.note in groups[i].notes
    decreases |groups|
  {
    if groups != [] {
      var init, last := groups[..|groups| - 1], groups[|groups| - 1];
      FlattenedMembers(init, pn);
      var tagged := Map(last.notes, ListedUnder(last.character));
      if pn in tagged {
        var j :| 0 <= j < |tagged| && tagged[j] == pn;
        assert last.notes[j] == pn.note;
        assert groups[|groups| - 1] == last;
      }
      if last.character == pn.characterName && pn.note in last.notes {
        var j :| 0 <= j < |last.notes| && last.notes[j] == pn.note;
        assert tagged[j] == pn;
      }
      if exists i :: 0 <= i < |groups| && groups[i].character == pn.characterName && pn.note in groups[i].notes {
        var i :| 0 <= i < |groups| && groups[i].character == pn.characterName && pn.note in groups[i].notes;
        if i < |init| {
          assert init[i] == groups[i];
        }
      }
    }
  }

  /** The result of `groupNotesByPlace`: place, then character, then the notes in listing order. */
  function ByPlace(groups: seq<CharacterGroup>): map<string, map<string, seq<PlaceNote>>> {
    var byPlace := GroupBy(Flattened(groups), PlaceOf);
    map p | p in byPlace :: GroupBy(byPlace[p], CharacterOf)
  }

  /**
   * Nothing is lost: every note of every section appears under its own
   * place and its section's character.
   */
  lemma {:induction false} ByPlaceComplete(groups: seq<CharacterGroup>, i: int, j: int)
    requires 0 <= i < |groups| && 0 <= j < |groups[i].notes|
    ensures var n, c := groups[i].notes[j], groups[i].character;
      var r := ByPlace(groups);
      PlaceKey(n) in r && c in r[PlaceKey(n)] && PlaceNote(n, c) in r[PlaceKey(n)][c]
  {
    var n, c := groups[i].notes[j], groups[i].character;
    var pn := PlaceNote(n, c);
    FlattenedMembers(groups, pn);
    var byPlace := GroupBy(Flattened(groups), PlaceOf);
    GroupByPartition(Flattened(groups), PlaceOf, pn);
    assert pn in byPlace[PlaceKey(n)];
    GroupByPartition(byPlace[PlaceKey(n)], CharacterOf, pn);
  }

  /**
   * Nothing is invented: a note listed under place `p` and character `c`
   * has that place and was listed in a section of that character.
   */
  lemma {:induction false} ByPlaceSound(groups: seq<CharacterGroup>, p: string, c: string, pn: PlaceNote)
    requires p in ByPlace(groups) && c in ByPlace(groups)[p] && pn in ByPlace(groups)[p][c]
    ensures PlaceKey(pn.note) == p && pn.characterName == c
    ensures exists i :: 0 <= i < |groups| && groups[i].character == c && pn.note in groups[i].notes
  {
    var byPlace := GroupBy(Flattened(groups), PlaceOf);
    assert p in byPlace;
    GroupByBucket(byPlace[p], CharacterOf, c);
    assert pn in Filter(byPlace[p], KeyIs(CharacterOf, c));
    assert pn in byPlace[p] && pn.characterName == c;
    GroupByBucket(Flattened(groups), PlaceOf, p);
    assert pn in Filter(Flattened(groups), KeyIs(PlaceOf, p));
    FlattenedMembers(groups, pn);
  }

  /**
   * Nothing is duplicated: a listed note sits in the bucket of its own place
   * and character exactly as often as it was listed, and in no other bucket.
   */
  lemma {:induction false} ByPlaceExactlyOnce(groups: seq<CharacterGroup>, pn: PlaceNote)
    requires pn in Flattened(groups)
    ensures var r := ByPlace(groups);
      PlaceOf(pn) in r && CharacterOf(pn) in r[PlaceOf(pn)]
      && multiset(r[PlaceOf(pn)][CharacterOf(pn)])[pn] == multiset(Flattened(groups))[pn]
    ensures forall p, c :: p in ByPlace(groups) && c in ByPlace(groups)[p] && pn in ByPlace(groups)[p][c] ==>
      p == PlaceOf(pn) && c == CharacterOf(pn)
  {
    var byPlace := GroupBy(Flattened(groups), PlaceOf);
    GroupByPartition(Flattened(groups), PlaceOf, pn);
    GroupByPartition(byPlace[PlaceOf(pn)], CharacterOf, pn);
    forall p, c | p in ByPlace(groups) && c in ByPlace(groups)[p] && pn in ByPlace(groups)[p][c]
      ensures p == PlaceOf(pn) && c == CharacterOf(pn)
    {
      ByPlaceSound(groups, p, c, pn);
    }
  }

  lemma FlattenedSnoc(groups: seq<CharacterGroup>, i: int)
    requires 0 <= i < |groups|
    ensures Flattened(groups[..i + 1]) == Flattened(groups[..i]) + Map(groups[i].notes, ListedUnder(groups[i].character))
  {
    assert groups[..i + 1][..i] == groups[..i];
  }

  /**
   * The two nested `forEach` loops that push each tagged note into
   * `placeGroups[placeKey]`; `ok` is false where the push throws on a place
   * key the record inherits.
   */
  method CollectByPlace(groups: seq<CharacterGroup>) returns (placeGroups: map<string, seq<PlaceNote>>, ok: bool)
    ensures ok <==> OwnKeys(Flattened(groups), PlaceOf)
    ensures ok ==> placeGroups == GroupBy(Flattened(groups), PlaceOf)
  {
    placeGroups := map[];
    ghost var pushed: seq<PlaceNote> := [];
    for i := 0 to |groups|
      invariant pushed == Flattened(groups[..i])
      invariant placeGroups == GroupBy(pushed, PlaceOf)
      invariant OwnKeys(pushed, PlaceOf)
    {
      var group := groups[i];
      ghost var done := pushed;
      for j := 0 to |group.notes|
        invariant pushed == done + Map(group.notes[..j], ListedUnder(group.character))
        invariant placeGroups == GroupBy(pushed, PlaceOf)
        invariant OwnKeys(pushed, PlaceOf)
      {
        var pn := PlaceNote(group.notes[j], group.character);
        var key := PlaceKey(group.notes[j]);
        if InheritedKey(key) {
          assert groups[i].notes[j] == group.notes[j];
          FlattenedMembers(groups, pn);
          var m :| 0 <= m < |Flattened(groups)| && Flattened(groups)[m] == pn;
          return placeGroups, false;
        }
        GroupBySnoc(pushed, pn, PlaceOf);
        OwnKeysSnoc(pushed, pn, PlaceOf);
        MapSnoc(group.notes, j, ListedUnder(group.character));
        ghost var before := placeGroups;
        if key !in placeGroups {
          placeGroups := placeGroups[key := []];
        }
        placeGroups := placeGroups[key := placeGroups[key] + [pn]];
        assert placeGroups == before[key := (if key in before then before[key] else []) + [pn]];
        pushed := pushed + [pn];
      }
      assert group.notes[..|group.notes|] == group.notes;
      FlattenedSnoc(groups, i);
    }
    assert groups[..|groups|] == groups;
    return placeGroups, true;
  }

  /**
   * `Object.entries(placeGroups).map(...)`: each place's notes regrouped by
   * character; `ok` is false where a character name is one the record inherits.
   */
  method RegroupByCharacter(placeGroups: map<string, seq<PlaceNote>>) returns (r: map<string, map<string, seq<PlaceNote>>>, ok: bool)
    ensures ok <==> BucketsOwn(placeGroups, CharacterOf)
    ensures ok ==> r == map p | p in placeGroups :: GroupBy(placeGroups[p], CharacterOf)
  {
    r := map[];
    var pending := placeGroups.Keys;
    while pending != {}
      invariant pending <= placeGroups.Keys
      invariant r.Keys == placeGroups.Keys - pending
      invariant forall p :: p in r ==> r[p] == GroupBy(placeGroups[p], CharacterOf)
      invariant forall p :: p in r ==> OwnKeys(placeGroups[p], CharacterOf)
      decreases pending
    {
      var p :| p in pending;
      var characterGroups, own := ComputeGroupBy(placeGroups[p], CharacterOf);
      if !own {
        return r, false;
      }
      r := r[p := characterGroups];
      pending := pending - {p};
    }
    return r, true;
  }

  /** The whole `groupNotesByPlace`: it completes exactly when no place key and no character name is inherited. */
  method GroupNotesByPlace(groups: seq<CharacterGroup>) returns (r: map<string, map<string, seq<PlaceNote>>>, ok: bool)
    ensures ok <==> OwnKeys(Flattened(groups), PlaceOf) && OwnKeys(Flattened(groups), CharacterOf)
    ensures ok ==> r == ByPlace(groups)
  {
    var placeGroups, placesOk := CollectByPlace(groups);
    if !placesOk {
      return map[], false;
    }
    BucketsOwnKeys(Flattened(groups), PlaceOf, CharacterOf);
    r, ok := RegroupByCharacter(placeGroups);
  }
}
