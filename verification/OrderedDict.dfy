/** Python's dict: items in the order in which their keys first came. */
module OrderedDict {
  datatype Item<K, V> = Item(key: K, value: V)

  ghost predicate DistinctKeys<K, V>(d: seq<Item<K, V>>) {
    forall i, j | 0 <= i < j < |d| :: d[i].key != d[j].key
  }

  // The place of a key, or the length of the dict if it has none
  function IndexOf<K(==), V>(d: seq<Item<K, V>>, key: K): (i: nat)
    ensures i <= |d| && (i < |d| ==> d[i].key == key)
    ensures forall j | 0 <= j < i :: d[j].key != key
  {
    if d == [] then 0
    else
      var i := IndexOf(d[..|d| - 1], key);
      if i < |d| - 1 || d[|d| - 1].key == key then i else |d|
  }

  // d[key] = value
  function Put<K(==), V>(d: seq<Item<K, V>>, key: K, value: V): seq<Item<K, V>> {
    var i := IndexOf(d, key);
    if i < |d| then d[i := Item(key, value)] else d + [Item(key, value)]
  }

  lemma PutMembers<K, V>(d: seq<Item<K, V>>, key: K, value: V, x: Item<K, V>)
    requires DistinctKeys(d)
    ensures DistinctKeys(Put(d, key, value))
    ensures x in Put(d, key, value) <==> x == Item(key, value) || (x in d && x.key != key)
  {
    var i, r := IndexOf(d, key), Put(d, key, value);
    assert r[i] == Item(key, value);
    if x in d && x.key != key {
      var j :| 0 <= j < |d| && d[j] == x;
      assert r[j] == x;
    }
  }

  function Keys<K, V>(d: seq<Item<K, V>>): seq<K> {
    seq(|d|, i requires 0 <= i < |d| => d[i].key)
  }

  /** A key keeps its place when its value is replaced; a new one goes to the end. */
  lemma PutKeepsOrder<K, V>(d: seq<Item<K, V>>, key: K, value: V)
    ensures Keys(Put(d, key, value)) == if key in Keys(d) then Keys(d) else Keys(d) + [key]
  {
    var i := IndexOf(d, key);
    if i < |d| {
      assert Keys(d)[i] == key;
    }
  }
}
