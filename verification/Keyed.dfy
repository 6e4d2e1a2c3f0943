/** Entries indexed by a key of theirs: a later entry replaces an earlier one of the same key. */
module Keyed {

  ghost predicate KeysDistinct<V>(entries: seq<V>, key: V -> string) {
    forall i, j | 0 <= i < j < |entries| :: key(entries[i]) != key(entries[j])
  }

  ghost predicate Indexes<V(!new)>(index: map<string, V>, entries: seq<V>, key: V -> string) {
    forall k, v :: (k in index && index[k] == v) <==> (v in entries && key(v) == k)
  }

  function ByKey<V>(entries: seq<V>, key: V -> string): map<string, V> {
    if entries == [] then map[]
    else var last := entries[|entries| - 1]; ByKey(entries[..|entries| - 1], key)[key(last) := last]
  }

  lemma {:induction false} ByKeyFinds<V>(entries: seq<V>, key: V -> string, k: string)
    ensures k in ByKey(entries, key) <==> exists v :: v in entries && key(v) == k
    ensures k in ByKey(entries, key) ==> ByKey(entries, key)[k] in entries && key(ByKey(entries, key)[k]) == k
    decreases |entries|
  {
    if entries != [] {
      var front, last := entries[..|entries| - 1], entries[|entries| - 1];
      assert entries == front + [last];
      ByKeyFinds(front, key, k);
    }
  }

  lemma KeysSnoc<V>(front: seq<V>, last: V, key: V -> string)
    ensures KeysDistinct(front + [last], key) <==>
              KeysDistinct(front, key) && forall v | v in front :: key(v) != key(last)
  {
    var all := front + [last];
    assert all[|front|] == last;
    if KeysDistinct(all, key) {
      forall v | v in front ensures key(v) != key(last) {
        var k :| 0 <= k < |front| && front[k] == v;
        assert all[k] == v;
      }
      forall a, b | 0 <= a < b < |front| ensures key(front[a]) != key(front[b]) {
        assert all[a] == front[a] && all[b] == front[b];
      }
    }
  }

  /** Equal sizes mean distinct keys. */
  lemma {:induction false} ByKeyCounts<V>(entries: seq<V>, key: V -> string)
    ensures |ByKey(entries, key)| <= |entries|
    ensures |ByKey(entries, key)| == |entries| <==> KeysDistinct(entries, key)
    decreases |entries|
  {
    if entries != [] {
      var front, last := entries[..|entries| - 1], entries[|entries| - 1];
      assert entries == front + [last];
      KeysSnoc(front, last, key);
      ByKeyFinds(front, key, key(last));
      ByKeyCounts(front, key);
    }
  }

  lemma {:induction false} ByKeyIndexes<V(!new)>(entries: seq<V>, key: V -> string)
    requires KeysDistinct(entries, key)
    ensures Indexes(ByKey(entries, key), entries, key)
    decreases |entries|
  {
    if entries != [] {
      var front, last := entries[..|entries| - 1], entries[|entries| - 1];
      assert entries == front + [last];
      KeysSnoc(front, last, key);
      ByKeyIndexes(front, key);
    }
  }

  method IndexEntries<V(!new)>(entries: seq<V>, key: V -> string) returns (index: map<string, V>)
    ensures index == ByKey(entries, key)
    ensures |index| == |entries| <==> KeysDistinct(entries, key)
    ensures KeysDistinct(entries, key) ==> Indexes(index, entries, key)
  {
    index := map[];
    for i := 0 to |entries|
      invariant index == ByKey(entries[..i], key)
    {
      assert entries[..i + 1][..i] == entries[..i];
      index := index[key(entries[i]) := entries[i]];
    }
    assert entries[..|entries|] == entries;
    ByKeyCounts(entries, key);
    if KeysDistinct(entries, key) {
      ByKeyIndexes(entries, key);
    }
  }
}
