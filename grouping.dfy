/**
 * Grouping into a record of buckets: the `reduce` that starts from `{}`,
 * creates `acc[key] = []` on first sight and pushes each element. The
 * record is a map; the order in which `Object.entries` lists its keys is
 * not part of the model.
 */
module Grouping {
  import opened Wrappers
  import opened Seqs

  /**
   * The property names a plain `{}` inherits from `Object.prototype`. For
   * each, `acc[k]` is already truthy (a function, or the prototype itself for
   * `__proto__`), so no bucket is created and `acc[k].push` throws a TypeError.
   */
  predicate InheritedKey(k: string) {
    k in {"constructor", "__proto__", "__defineGetter__", "__defineSetter__", "__lookupGetter__",
          "__lookupSetter__", "hasOwnProperty", "isPrototypeOf", "propertyIsEnumerable",
          "toLocaleString", "toString", "valueOf"}
  }

  /** No element's key is one that `{}` inherits. */
  predicate OwnKeys<T>(s: seq<T>, key: T -> string) {
    forall i :: 0 <= i < |s| ==> !InheritedKey(key(s[i]))
  }

  /** The predicate "its key is `k`". */
  function KeyIs<T>(key: T -> string, k: string): T -> bool {
    (x: T) => key(x) == k
  }

  /** The buckets: one per key that occurs, each holding the elements with that key in input order. */
  function GroupBy<T>(s: seq<T>, key: T -> string): map<string, seq<T>>
    decreases |s|
  {
    if s == [] then map[]
    else
      var init, x := s[..|s| - 1], s[|s| - 1];
      var g0 := GroupBy(init, key);
      g0[key(x) := (if key(x) in g0 then g0[key(x)] else []) + [x]]
  }

  /** A bucket exists exactly for the keys that occur in the input. */
  lemma {:induction false} GroupByKeys<T>(s: seq<T>, key: T -> string, k: string)
    ensures k in GroupBy(s, key) <==> exists i :: 0 <= i < |s| && key(s[i]) == k
    decreases |s|
  {
    if s != [] {
      var init := s[..|s| - 1];
      GroupByKeys(init, key, k);
      if k in GroupBy(init, key) {
        var i :| 0 <= i < |init| && key(init[i]) == k;
        assert s[i] == init[i];
      }
      if exists i :: 0 <= i < |s| && key(s[i]) == k {
        var i :| 0 <= i < |s| && key(s[i]) == k;
        if i < |init| {
          assert init[i] == s[i];
        }
      }
    }
  }

  /** Each bucket is the input filtered by its key, so it keeps the input's order. */
  lemma {:induction false} GroupByBucket<T>(s: seq<T>, key: T -> string, k: string)
    requires k in GroupBy(s, key)
    ensures GroupBy(s, key)[k] == Filter(s, KeyIs(key, k))
    decreases |s|
  {
    var init, x := s[..|s| - 1], s[|s| - 1];
    assert s == init + [x];
    var g0 := GroupBy(init, key);
    if k in g0 {
      GroupByBucket(init, key, k);
    } else {
      GroupByKeys(init, key, k);
      FilterNone(init, KeyIs(key, k));
    }
  }

  /** Adding one element touches only its own bucket. */
  lemma GroupBySnoc<T>(s: seq<T>, x: T, key: T -> string)
    ensures var g := GroupBy(s, key);
      GroupBy(s + [x], key) == g[key(x) := (if key(x) in g then g[key(x)] else []) + [x]]
  {
    assert (s + [x])[..|s|] == s;
  }

  /**
   * Grouping loses and duplicates nothing: every element sits in the bucket
   * of its key exactly as often as in the input, and in no other bucket.
   */
  lemma {:induction false} GroupByPartition<T>(s: seq<T>, key: T -> string, x: T)
    ensures x in s ==> key(x) in GroupBy(s, key)
    ensures key(x) in GroupBy(s, key) ==> multiset(GroupBy(s, key)[key(x)])[x] == multiset(s)[x]
    ensures forall k :: k in GroupBy(s, key) && k != key(x) ==> x !in GroupBy(s, key)[k]
  {
    var g := GroupBy(s, key);
    if x in s {
      var i :| 0 <= i < |s| && s[i] == x;
      GroupByKeys(s, key, key(s[i]));
    }
    if key(x) in g {
      GroupByBucket(s, key, key(x));
      FilterCount(s, KeyIs(key, key(x)), x);
    }
    forall k | k in g && k != key(x)
      ensures x !in g[k]
    {
      GroupByBucket(s, key, k);
      FilterCount(s, KeyIs(key, k), x);
    }
  }

  /** Every bucket is non-empty: a key appears only when some element carries it. */
  lemma {:induction false} GroupByNonEmpty<T>(s: seq<T>, key: T -> string, k: string)
    requires k in GroupBy(s, key)
    ensures |GroupBy(s, key)[k]| > 0
  {
    GroupByKeys(s, key, k);
    var i :| 0 <= i < |s| && key(s[i]) == k;
    GroupByBucket(s, key, k);
    assert s[i] in Filter(s, KeyIs(key, k));
  }

  /** The number of elements held across all buckets. */
  ghost function TotalSize<T>(g: map<string, seq<T>>): nat
    decreases |g.Keys|
  {
    if g == map[] then 0
    else
      var k :| k in g;
      |g[k]| + TotalSize(g - {k})
  }

  /** The total may be taken apart at any bucket, not only the one `TotalSize` happens to pick. */
  lemma {:induction false} TotalSizeRemove<T>(g: map<string, seq<T>>, k: string)
    requires k in g
    ensures TotalSize(g) == |g[k]| + TotalSize(g - {k})
    decreases |g.Keys|
  {
    var k' :| k' in g && TotalSize(g) == |g[k']| + TotalSize(g - {k'});
    if k' != k {
      TotalSizeRemove(g - {k'}, k);
      TotalSizeRemove(g - {k}, k');
      assert g - {k'} - {k} == g - {k} - {k'};
    }
  }

  /** The bucket sizes add up to the length of the input. */
  lemma {:induction false} GroupBySizes<T>(s: seq<T>, key: T -> string)
    ensures TotalSize(GroupBy(s, key)) == |s|
    decreases |s|
  {
    if s != [] {
      var init, x := s[..|s| - 1], s[|s| - 1];
      assert s == init + [x];
      GroupBySizes(init, key);
      var g0 := GroupBy(init, key);
      GroupBySnoc(init, x, key);
      var g := GroupBy(s, key);
      TotalSizeRemove(g, key(x));
      assert g - {key(x)} == g0 - {key(x)};
      if key(x) in g0 {
        TotalSizeRemove(g0, key(x));
      } else {
        assert g0 - {key(x)} == g0;
      }
    }
  }

  /** Extending the input by one element keeps its keys own exactly when that element's key is own. */
  lemma OwnKeysSnoc<T>(s: seq<T>, x: T, key: T -> string)
    ensures OwnKeys(s + [x], key) <==> OwnKeys(s, key) && !InheritedKey(key(x))
  {
    if OwnKeys(s + [x], key) {
      forall i | 0 <= i < |s| ensures !InheritedKey(key(s[i])) {
        assert (s + [x])[i] == s[i];
      }
      assert (s + [x])[|s|] == x;
    }
  }

  /** No bucket holds an element whose `key2` is inherited. */
  predicate BucketsOwn<T>(g: map<string, seq<T>>, key2: T -> string) {
    forall k :: k in g ==> OwnKeys(g[k], key2)
  }

  /** Every bucket has own secondary keys exactly when the whole input does. */
  lemma {:induction false} BucketsOwnKeys<T>(s: seq<T>, key: T -> string, key2: T -> string)
    ensures BucketsOwn(GroupBy(s, key), key2) <==> OwnKeys(s, key2)
  {
    var g := GroupBy(s, key);
    if forall k :: k in g ==> OwnKeys(g[k], key2) {
      forall i | 0 <= i < |s| ensures !InheritedKey(key2(s[i])) {
        GroupByPartition(s, key, s[i]);
        var b := g[key(s[i])];
        assert multiset(b)[s[i]] > 0;
        assert s[i] in b;
        var j :| 0 <= j < |b| && b[j] == s[i];
        assert OwnKeys(b, key2);
        assert !InheritedKey(key2(b[j]));
      }
      assert OwnKeys(s, key2);
    }
    if OwnKeys(s, key2) {
      forall k | k in g ensures OwnKeys(g[k], key2) {
        GroupByBucket(s, key, k);
        forall j | 0 <= j < |g[k]| ensures !InheritedKey(key2(g[k][j])) {
          assert g[k][j] in s;
        }
      }
    }
  }

  /**
   * The `reduce` into `{}` as written: `None` when some element's key is
   * inherited and the push throws, otherwise the buckets.
   */
  function GroupByAsWritten<T>(s: seq<T>, key: T -> string): Option<map<string, seq<T>>>
    decreases |s|
  {
    if s == [] then Some(map[])
    else
      var init, x := s[..|s| - 1], s[|s| - 1];
      match GroupByAsWritten(init, key)
      case None => None
      case Some(g0) =>
        if InheritedKey(key(x)) then None
        else Some(g0[key(x) := (if key(x) in g0 then g0[key(x)] else []) + [x]])
  }

  /** The code as written throws exactly when some key is inherited, and otherwise agrees with `GroupBy`. */
  lemma {:induction false} GroupByAsWrittenSpec<T>(s: seq<T>, key: T -> string)
    ensures GroupByAsWritten(s, key) == if OwnKeys(s, key) then Some(GroupBy(s, key)) else None
    decreases |s|
  {
    if s != [] {
      var init, x := s[..|s| - 1], s[|s| - 1];
      GroupByAsWrittenSpec(init, key);
      assert s == init + [x];
      OwnKeysSnoc(init, x, key);
    }
  }

  /** A single note dated `constructor` makes the record-based grouping throw, where `GroupBy` files it. */
  lemma InheritedKeyThrows<T>(x: T, key: T -> string)
    requires key(x) == "constructor"
    ensures GroupByAsWritten([x], key) == None
    ensures GroupBy([x], key) == map["constructor" := [x]]
  {
    assert [x][..0] == [];
    assert GroupByAsWritten([x][..0], key) == Some(map[]);
    assert GroupBy([x][..0], key) == map[];
    assert [] + [x] == [x];
  }

  /** The loop: create the bucket on first sight, then push; it stops (`ok` false) where the push throws. */
  method ComputeGroupBy<T>(s: seq<T>, key: T -> string) returns (g: map<string, seq<T>>, ok: bool)
    ensures ok <==> OwnKeys(s, key)
    ensures ok ==> g == GroupBy(s, key)
    ensures (if ok then Some(g) else None) == GroupByAsWritten(s, key)
  {
    GroupByAsWrittenSpec(s, key);
    g := map[];
    for i := 0 to |s|
      invariant g == GroupBy(s[..i], key)
      invariant forall j :: 0 <= j < i ==> !InheritedKey(key(s[j]))
    {
      GroupBySnoc(s[..i], s[i], key);
      assert s[..i + 1] == s[..i] + [s[i]];
      var k := key(s[i]);
      if InheritedKey(k) {
        return g, false;
      }
      ghost var before := g;
      if k !in g {
        g := g[k := []];
      }
      g := g[k := g[k] + [s[i]]];
      assert g == before[k := (if k in before then before[k] else []) + [s[i]]];
    }
    assert s[..|s|] == s;
    return g, true;
  }
}
