/**
 * Insertion-ordered maps: Kotlin's `mutableMapOf` (a `LinkedHashMap`) and the
 * `LinkedTreeMap` Gson builds when it reads a JSON object back. Iterating over
 * such a map visits its keys in the order they were first inserted;
 * overwriting a key keeps its place and removing a key drops it from the order.
 */
module OrderedMap {
  import opened Common

  datatype Raw<K(==,!new), V> = Raw(keys: seq<K>, entries: map<K, V>)

  /** The key order lists every key of the map exactly once. */
  ghost predicate Coherent<K(!new), V>(r: Raw<K, V>) {
    && NoDuplicates(r.keys)
    && (forall k :: k in r.entries <==> k in r.keys)
  }

  type OMap<K(==,!new), V> = r: Raw<K, V> | Coherent(r) witness Raw([], map[])

  function Empty<K(==,!new), V>(): (r: OMap<K, V>)
    ensures r.entries == map[] && |r.keys| == 0
  {
    Raw([], map[])
  }

  function Get<K(==,!new), V>(m: OMap<K, V>, k: K): (r: Option<V>)
    ensures r.Some? <==> k in m.entries
    ensures r.Some? ==> r.value == m.entries[k]
  {
    if k in m.entries then Some(m.entries[k]) else None
  }

  /** Number of entries; the key order has one position per entry. */
  function Size<K(==,!new), V>(m: OMap<K, V>): (n: nat)
    ensures n == |m.entries|
  {
    DistinctCard(m.keys, m.entries.Keys);
    |m.keys|
  }

  lemma {:induction false} DistinctCard<K(!new)>(s: seq<K>, ks: set<K>)
    requires NoDuplicates(s)
    requires forall k :: k in ks <==> k in s
    ensures |ks| == |s|
    decreases |s|
  {
    if |s| > 0 {
      var last := s[|s| - 1];
      var init := s[..|s| - 1];
      assert forall k :: k in ks - {last} <==> k in init by {
        forall k ensures k in ks - {last} <==> k in init {
          if k in init {
            var i :| 0 <= i < |init| && init[i] == k;
            assert s[i] == k;
          }
          if k in s && k != last {
            var i :| 0 <= i < |s| && s[i] == k;
            assert init[i] == k;
          }
        }
      }
      DistinctCard(init, ks - {last});
    } else {
      assert forall k :: k !in ks;
      assert ks == {};
    }
  }

  /**
   * `put`: overwrites the value of a known key in place, or appends a new key
   * at the end of the iteration order.
   */
  function Put<K(==,!new), V>(m: OMap<K, V>, k: K, v: V): (r: OMap<K, V>)
    ensures Get(r, k) == Some(v)
    ensures forall j :: j != k ==> Get(r, j) == Get(m, j)
    ensures k in m.entries ==> r.keys == m.keys
    ensures k !in m.entries ==> r.keys == m.keys + [k]
  {
    if k in m.entries then Raw(m.keys, m.entries[k := v])
    else Raw(m.keys + [k], m.entries[k := v])
  }

  /** The elements of `s` that belong to `keep`, in their order in `s`. */
  function KeepIn<K(==,!new)>(s: seq<K>, keep: set<K>): (r: seq<K>)
    ensures forall x :: x in r <==> x in s && x in keep
    ensures NoDuplicates(s) ==> NoDuplicates(r)
    ensures |r| <= |s|
  {
    if |s| == 0 then []
    else if s[0] in keep then [s[0]] + KeepIn(s[1..], keep)
    else KeepIn(s[1..], keep)
  }

  /** Keys that pass the filter keep their relative order. */
  function Restrict<K(==,!new), V>(m: OMap<K, V>, ks: set<K>): (r: OMap<K, V>)
    ensures forall k :: Get(r, k) == if k in ks then Get(m, k) else None
    ensures r.keys == KeepIn(m.keys, ks)
  {
    Raw(KeepIn(m.keys, ks), map k | k in m.entries && k in ks :: m.entries[k])
  }

  /** `remove`: drops one key, leaving the others and their order untouched. */
  function Remove<K(==,!new), V>(m: OMap<K, V>, k: K): (r: OMap<K, V>)
    ensures Get(r, k) == None
    ensures forall j :: j != k ==> Get(r, j) == Get(m, j)
    ensures r.keys == KeepIn(m.keys, m.entries.Keys - {k})
  {
    Restrict(m, m.entries.Keys - {k})
  }

  /** `filter`: keeps exactly the entries whose value satisfies `p`. */
  function Filter<K(==,!new), V>(m: OMap<K, V>, p: V -> bool): (r: OMap<K, V>)
    ensures forall k :: Get(r, k) == if k in m.entries && p(m.entries[k]) then Get(m, k) else None
    ensures r.keys == KeepIn(m.keys, set k | k in m.entries && p(m.entries[k]))
  {
    Restrict(m, set k | k in m.entries && p(m.entries[k]))
  }

  /** `values`: the values in iteration order. */
  function Values<K(==,!new), V>(m: OMap<K, V>): (r: seq<V>)
    ensures |r| == |m.keys|
    ensures forall i :: 0 <= i < |r| ==> r[i] == m.entries[m.keys[i]]
  {
    seq(|m.keys|, i requires 0 <= i < |m.keys| => m.entries[m.keys[i]])
  }

  lemma {:induction false} KeepInAll<K(!new)>(s: seq<K>, keep: set<K>)
    requires forall x :: x in s ==> x in keep
    ensures KeepIn(s, keep) == s
    decreases |s|
  {
    if |s| > 0 {
      KeepInAll(s[1..], keep);
    }
  }

  lemma {:induction false} KeepInAppend<K(!new)>(s: seq<K>, x: K, keep: set<K>)
    ensures KeepIn(s + [x], keep) == KeepIn(s, keep) + (if x in keep then [x] else [])
    decreases |s|
  {
    if |s| == 0 {
      assert s + [x] == [x];
    } else {
      assert (s + [x])[1..] == s[1..] + [x];
      KeepInAppend(s[1..], x, keep);
    }
  }

  /** Two maps that answer every lookup alike hold the same entries. */
  lemma SameEntries<K(!new), V>(a: OMap<K, V>, b: OMap<K, V>)
    requires forall j :: Get(a, j) == Get(b, j)
    ensures a.entries == b.entries
  {
    assert forall j :: j in a.entries <==> j in b.entries by {
      forall j ensures j in a.entries <==> j in b.entries {
        assert Get(a, j) == Get(b, j);
      }
    }
    forall j | j in a.entries ensures a.entries[j] == b.entries[j] {
      assert Get(a, j) == Get(b, j);
    }
  }

  /** Removing a key that was just appended gives back the old key order. */
  lemma RemoveAfterPutKeys<K(!new), V>(m: OMap<K, V>, k: K, v: V)
    requires k !in m.entries
    ensures Remove(Put(m, k, v), k).keys == m.keys
  {
    var a := Put(m, k, v);
    var keep := a.entries.Keys - {k};
    KeepInAppend(m.keys, k, keep);
    assert forall x :: x in m.keys ==> x in keep;
    KeepInAll(m.keys, keep);
  }

  /** Removing a key that was just added gives back the map, order included. */
  lemma RemoveAfterPut<K(!new), V>(m: OMap<K, V>, k: K, v: V)
    requires k !in m.entries
    ensures Remove(Put(m, k, v), k) == m
  {
    var r := Remove(Put(m, k, v), k);
    RemoveAfterPutKeys(m, k, v);
    assert forall j :: Get(r, j) == Get(m, j);
    SameEntries(r, m);
  }

}
