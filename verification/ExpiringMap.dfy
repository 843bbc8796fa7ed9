/** An insertion-ordered JavaScript `Map` whose values carry an expiry time.
    Position 0 is the entry that was inserted first. */
module ExpiringMap {
  import opened Options

  datatype Entry<K, V> = Entry(key: K, value: V, expiresAt: int)

  ghost function Keys<K, V>(entries: seq<Entry<K, V>>): set<K> {
    set i | 0 <= i < |entries| :: entries[i].key
  }

  ghost predicate Distinct<K, V>(entries: seq<Entry<K, V>>) {
    forall i, j :: 0 <= i < j < |entries| ==> entries[i].key != entries[j].key
  }

  ghost predicate SortedByExpiry<K, V>(entries: seq<Entry<K, V>>) {
    forall i, j :: 0 <= i < j < |entries| ==> entries[i].expiresAt <= entries[j].expiresAt
  }

  /** `map.get(key)`. */
  function Get<K(==), V>(entries: seq<Entry<K, V>>, key: K): (r: Option<Entry<K, V>>)
    ensures r.None? <==> key !in Keys(entries)
    ensures r.Some? ==> r.value in entries && r.value.key == key
  {
    if entries == [] then None
    else if entries[0].key == key then
      assert key in Keys(entries); Some(entries[0])
    else
      var r := Get(entries[1..], key);
      assert Keys(entries) == {entries[0].key} + Keys(entries[1..]) by { KeysCons(entries); }
      r
  }

  lemma {:induction false} KeysCons<K, V>(entries: seq<Entry<K, V>>)
    requires entries != []
    ensures Keys(entries) == {entries[0].key} + Keys(entries[1..])
  {
    forall k | k in Keys(entries) ensures k in {entries[0].key} + Keys(entries[1..]) {
      var i :| 0 <= i < |entries| && entries[i].key == k;
      if i > 0 { assert entries[1..][i - 1].key == k; }
    }
  }

  lemma {:induction false} KeysAppend<K, V>(entries: seq<Entry<K, V>>, e: Entry<K, V>)
    ensures Keys(entries + [e]) == Keys(entries) + {e.key}
  {
    var all := entries + [e];
    assert all[|entries|] == e;
    forall k | k in Keys(entries) ensures k in Keys(all) {
      var i :| 0 <= i < |entries| && entries[i].key == k;
      assert all[i].key == k;
    }
  }

  /** With distinct keys, an entry found anywhere is what `get` answers. */
  lemma {:induction false} GetUnique<K, V>(entries: seq<Entry<K, V>>, i: nat)
    requires Distinct(entries) && i < |entries|
    ensures Get(entries, entries[i].key) == Some(entries[i])
  {
    if i > 0 {
      assert entries[1..][i - 1] == entries[i];
      GetUnique(entries[1..], i - 1);
    }
  }

  /** `map.delete(key)`: the other entries keep their order. */
  function Delete<K(==), V>(entries: seq<Entry<K, V>>, key: K): (r: seq<Entry<K, V>>)
    ensures Keys(r) == Keys(entries) - {key}
    ensures key !in Keys(entries) ==> r == entries
    ensures |r| <= |entries|
  {
    if entries == [] then []
    else
      var rest := Delete(entries[1..], key);
      assert Keys(entries) == {entries[0].key} + Keys(entries[1..]) by { KeysCons(entries); }
      if entries[0].key == key then rest
      else
        assert Keys([entries[0]] + rest) == {entries[0].key} + Keys(rest) by { KeysCons([entries[0]] + rest); }
        [entries[0]] + rest
  }

  /** Deleting from distinct entries removes exactly the one at the key's position. */
  lemma {:induction false} DeleteAt<K, V>(entries: seq<Entry<K, V>>, i: nat)
    requires Distinct(entries) && i < |entries|
    ensures Delete(entries, entries[i].key) == entries[..i] + entries[i + 1..]
  {
    if i == 0 {
      assert entries[0].key !in Keys(entries[1..]);
    } else {
      var key, tail := entries[i].key, entries[1..];
      assert tail[i - 1] == entries[i];
      DeleteAt(tail, i - 1);
      assert Delete(entries, key) == [entries[0]] + Delete(tail, key);
      assert tail[..i - 1] == entries[1..i] && tail[i..] == entries[i + 1..];
      assert [entries[0]] + entries[1..i] == entries[..i];
    }
  }

  /** `map.set(key, …)`: a present key keeps its position, a new one goes last. */
  function Put<K(==), V>(entries: seq<Entry<K, V>>, e: Entry<K, V>): (r: seq<Entry<K, V>>)
    ensures e.key !in Keys(entries) ==> r == entries + [e]
  {
    if entries == [] then [e]
    else if entries[0].key == e.key then
      assert e.key in Keys(entries); [e] + entries[1..]
    else
      assert Keys(entries) == {entries[0].key} + Keys(entries[1..]) by { KeysCons(entries); }
      [entries[0]] + Put(entries[1..], e)
  }
}
