/**
 * The timeline's expand/collapse state (src/store/timeline-store.ts) and
 * the `isExpanded` reads of src/feature/timeline/Timeline.tsx. A section
 * is addressed by list positions: a date section by its index, a time
 * section by `${dateIndex}-${timeIndex}`, a place section by
 * `${dateIndex}-${timeIndex}-${placeIndex}`.
 */
module TimelineState {
  import opened Text

  /** `${dateIndex}-${timeIndex}` */
  function TimeSectionKey(d: nat, t: nat): string {
    NatStr(d) + "-" + NatStr(t)
  }

  /** `${dateIndex}-${timeIndex}-${placeIndex}` */
  function PlaceSectionKey(d: nat, t: nat, p: nat): string {
    NatStr(d) + "-" + NatStr(t) + "-" + NatStr(p)
  }

  /** A number followed by a dash can be read back: the dash is the first non-digit. */
  lemma {:induction false} SplitAtDash(a: nat, s1: string, b: nat, s2: string)
    requires NatStr(a) + "-" + s1 == NatStr(b) + "-" + s2
    ensures a == b && s1 == s2
  {
    var x, y := NatStr(a), NatStr(b);
    var whole := x + "-" + s1;
    assert whole == y + "-" + s2;
    DigitRunStops(x, "-" + s1);
    DigitRunStops(y, "-" + s2);
    assert whole == x + ("-" + s1) && whole == y + ("-" + s2);
    assert x == whole[..|x|] == y;
    NatStrInjective(a, b);
    assert s1 == whole[|x| + 1..] == s2;
  }

  /** Distinct time sections never share an entry. */
  lemma {:induction false} TimeSectionKeyInjective(d1: nat, t1: nat, d2: nat, t2: nat)
    ensures TimeSectionKey(d1, t1) == TimeSectionKey(d2, t2) ==> d1 == d2 && t1 == t2
  {
    if TimeSectionKey(d1, t1) == TimeSectionKey(d2, t2) {
      SplitAtDash(d1, NatStr(t1), d2, NatStr(t2));
      NatStrInjective(t1, t2);
    }
  }

  /** Distinct place sections never share an entry. */
  lemma {:induction false} PlaceSectionKeyInjective(d1: nat, t1: nat, p1: nat, d2: nat, t2: nat, p2: nat)
    ensures PlaceSectionKey(d1, t1, p1) == PlaceSectionKey(d2, t2, p2) ==> d1 == d2 && t1 == t2 && p1 == p2
  {
    if PlaceSectionKey(d1, t1, p1) == PlaceSectionKey(d2, t2, p2) {
      var rest1, rest2 := NatStr(t1) + "-" + NatStr(p1), NatStr(t2) + "-" + NatStr(p2);
      assert PlaceSectionKey(d1, t1, p1) == NatStr(d1) + "-" + rest1;
      assert PlaceSectionKey(d2, t2, p2) == NatStr(d2) + "-" + rest2;
      SplitAtDash(d1, rest1, d2, rest2);
      SplitAtDash(t1, NatStr(p1), t2, NatStr(p2));
      NatStrInjective(p1, p2);
    }
  }

  /** `m[k] !== false`: a section with no entry yet is expanded. */
  predicate Expanded<K>(m: map<K, bool>, k: K) {
    !(k in m && m[k] == false)
  }

  /** `{ ...m, [k]: m[k] === false ? true : false }` */
  function Toggled<K>(m: map<K, bool>, k: K): map<K, bool> {
    m[k := k in m && m[k] == false]
  }

  class TimelineStore {
    var expandedDates: map<nat, bool>
    var expandedTimes: map<string, bool>
    var expandedPlaces: map<string, bool>

    /** Every section starts expanded. */
    constructor ()
      ensures expandedDates == map[] && expandedTimes == map[] && expandedPlaces == map[]
      ensures forall d: nat :: IsDateExpanded(d)
    {
      expandedDates := map[];
      expandedTimes := map[];
      expandedPlaces := map[];
    }

    predicate IsDateExpanded(d: nat)
      reads this
    {
      Expanded(expandedDates, d)
    }

    predicate IsTimeExpanded(d: nat, t: nat)
      reads this
    {
      Expanded(expandedTimes, TimeSectionKey(d, t))
    }

    predicate IsPlaceExpanded(d: nat, t: nat, p: nat)
      reads this
    {
      Expanded(expandedPlaces, PlaceSectionKey(d, t, p))
    }

    /** Flips the one date section and no other. */
    method ToggleDate(d: nat)
      modifies this
      ensures expandedDates == Toggled(old(expandedDates), d)
      ensures expandedTimes == old(expandedTimes) && expandedPlaces == old(expandedPlaces)
      ensures IsDateExpanded(d) == !old(IsDateExpanded(d))
      ensures forall e: nat :: e != d ==> IsDateExpanded(e) == old(IsDateExpanded(e))
    {
      expandedDates := expandedDates[d := d in expandedDates && expandedDates[d] == false];
    }

    /** Flips the one time section and no other. */
    method ToggleTime(d: nat, t: nat)
      modifies this
      ensures expandedTimes == Toggled(old(expandedTimes), TimeSectionKey(d, t))
      ensures expandedDates == old(expandedDates) && expandedPlaces == old(expandedPlaces)
      ensures IsTimeExpanded(d, t) == !old(IsTimeExpanded(d, t))
      ensures forall d2: nat, t2: nat :: (d2, t2) != (d, t) ==> IsTimeExpanded(d2, t2) == old(IsTimeExpanded(d2, t2))
    {
      var key := TimeSectionKey(d, t);
      expandedTimes := expandedTimes[key := key in expandedTimes && expandedTimes[key] == false];
      forall d2: nat, t2: nat | (d2, t2) != (d, t)
        ensures IsTimeExpanded(d2, t2) == old(IsTimeExpanded(d2, t2))
      {
        TimeSectionKeyInjective(d, t, d2, t2);
      }
    }

    /** Flips the one place section and no other. */
    method TogglePlace(d: nat, t: nat, p: nat)
      modifies this
      ensures expandedPlaces == Toggled(old(expandedPlaces), PlaceSectionKey(d, t, p))
      ensures expandedDates == old(expandedDates) && expandedTimes == old(expandedTimes)
      ensures IsPlaceExpanded(d, t, p) == !old(IsPlaceExpanded(d, t, p))
      ensures forall d2: nat, t2: nat, p2: nat :: (d2, t2, p2) != (d, t, p) ==>
        IsPlaceExpanded(d2, t2, p2) == old(IsPlaceExpanded(d2, t2, p2))
    {
      var key := PlaceSectionKey(d, t, p);
      expandedPlaces := expandedPlaces[key := key in expandedPlaces && expandedPlaces[key] == false];
      forall d2: nat, t2: nat, p2: nat | (d2, t2, p2) != (d, t, p)
        ensures IsPlaceExpanded(d2, t2, p2) == old(IsPlaceExpanded(d2, t2, p2))
      {
        PlaceSectionKeyInjective(d, t, p, d2, t2, p2);
      }
    }
  }

  /** Toggling a section twice restores what the reader sees, though a missing entry is left as `true`. */
  lemma ToggleTwice<K>(m: map<K, bool>, k: K, j: K)
    ensures Expanded(Toggled(Toggled(m, k), k), j) == Expanded(m, j)
    ensures Toggled(Toggled(m, k), k) == m[k := Expanded(m, k)]
  {
  }
}
