/** Array idioms of the JavaScript sources. */
module JsCollections {
  ghost predicate Distinct<T>(s: seq<T>) {
    forall i, j :: 0 <= i < j < |s| ==> s[i] != s[j]
  }

  ghost function Elements<T>(s: seq<T>): set<T> {
    set x | x in s
  }

  /** `[...new Set(s)]`: each element once, in first-seen order. */
  function Unique<T(==, !new)>(s: seq<T>): (r: seq<T>)
    ensures Distinct(r)
    ensures forall x :: x in r <==> x in s
  {
    if s == [] then []
    else
      var front := Unique(s[..|s| - 1]);
      var last := s[|s| - 1];
      assert forall x :: x in s <==> x in s[..|s| - 1] || x == last;
      if last in front then front else front + [last]
  }

  /** `x` occurs in `s` before `y` does. */
  predicate SeenBefore<T(==)>(s: seq<T>, x: T, y: T) {
    exists p: nat :: p < |s| && s[p] == x && y !in s[..p + 1]
  }

  /** The first-seen order: an element comes before another only when its first
      occurrence does. */
  lemma {:induction false} UniqueKeepsOrder<T(!new)>(s: seq<T>, i: nat, j: nat)
    requires i < j < |Unique(s)|
    ensures SeenBefore(s, Unique(s)[i], Unique(s)[j])
  {
    var t := s[..|s| - 1];
    if j < |Unique(t)| {
      UniqueKeepsOrder(t, i, j);
      var p: nat :| p < |t| && t[p] == Unique(t)[i] && Unique(t)[j] !in t[..p + 1];
      assert s[p] == Unique(s)[i] && s[..p + 1] == t[..p + 1];
    } else {
      assert Unique(t)[i] in t;
      var p: nat :| p < |t| && t[p] == Unique(t)[i];
      assert s[p] == Unique(s)[i];
      assert forall x :: x in s[..p + 1] ==> x in t by { assert s[..p + 1] == t[..p + 1]; }
    }
  }

  lemma {:induction false} UniqueOfDistinct<T(!new)>(s: seq<T>)
    requires Distinct(s)
    ensures Unique(s) == s
  {
    if s != [] {
      var t := s[..|s| - 1];
      UniqueOfDistinct(t);
      assert s == t + [s[|s| - 1]];
    }
  }

  lemma {:induction false} DistinctCardinality<T(!new)>(s: seq<T>)
    requires Distinct(s)
    ensures |Elements(s)| == |s|
  {
    if s != [] {
      var t, last := s[..|s| - 1], s[|s| - 1];
      DistinctCardinality(t);
      assert Elements(s) == Elements(t) + {last};
      assert last !in t;
    } else {
      assert Elements(s) == {};
    }
  }

  /** Elements of `s` outside `gone`, in order. */
  function Without<T(==, !new)>(s: seq<T>, gone: set<T>): (r: seq<T>)
    ensures forall x :: x in r <==> x in s && x !in gone
    ensures |r| <= |s|
  {
    if s == [] then []
    else if s[0] in gone then Without(s[1..], gone) else [s[0]] + Without(s[1..], gone)
  }

  lemma {:induction false} WithoutIsDistinct<T(!new)>(s: seq<T>, gone: set<T>)
    requires Distinct(s)
    ensures Distinct(Without(s, gone))
  {
    if s != [] {
      WithoutIsDistinct(s[1..], gone);
      assert s[0] !in s[1..];
    }
  }

  /** Taking a part of a distinct sequence away leaves the difference. */
  lemma {:induction false} WithoutCounts<T(!new)>(s: seq<T>, gone: set<T>)
    requires Distinct(s) && gone <= Elements(s)
    ensures |Without(s, gone)| == |s| - |gone|
  {
    WithoutIsDistinct(s, gone);
    DistinctCardinality(s);
    DistinctCardinality(Without(s, gone));
    assert Elements(Without(s, gone)) == Elements(s) - gone;
  }

  /** `s.map(f)`. */
  function MapSeq<A, B>(f: A -> B, s: seq<A>): (r: seq<B>)
    ensures |r| == |s| && forall i :: 0 <= i < |r| ==> r[i] == f(s[i])
  {
    seq(|s|, i requires 0 <= i < |s| => f(s[i]))
  }

  lemma {:induction false} MapAppend<A, B>(f: A -> B, a: seq<A>, b: seq<A>)
    ensures MapSeq(f, a + b) == MapSeq(f, a) + MapSeq(f, b)
  {
  }

  /** An injective `f` may be mapped before or after taking each element once. */
  lemma {:induction false} MapUnique<A(!new), B(!new)>(f: A -> B, s: seq<A>)
    requires forall x, y :: x in s && y in s && f(x) == f(y) ==> x == y
    ensures Unique(MapSeq(f, s)) == MapSeq(f, Unique(s))
  {
    if s != [] {
      var t, last := s[..|s| - 1], s[|s| - 1];
      MapUnique(f, t);
      assert MapSeq(f, s)[..|s| - 1] == MapSeq(f, t);
      var u := Unique(t);
      assert f(last) in MapSeq(f, u) <==> last in u by {
        if last in u {
          var i :| 0 <= i < |u| && u[i] == last;
          assert MapSeq(f, u)[i] == f(last);
        }
        if f(last) in MapSeq(f, u) {
          var i :| 0 <= i < |MapSeq(f, u)| && MapSeq(f, u)[i] == f(last);
          assert u[i] in t;
        }
      }
    }
  }

  // ------------------------------------------------------------------- objects

  /** An object with string keys in insertion order (none of them an array index). */
  type Table = seq<(string, int)>

  /** `object[key] = value`: a present key keeps its place. */
  function Put(t: Table, key: string, value: int): Table {
    if t == [] then [(key, value)]
    else if t[0].0 == key then [(key, value)] + t[1..]
    else [t[0]] + Put(t[1..], key, value)
  }

  /** `Object.fromEntries(entries)`. */
  function FromEntries(entries: Table): Table {
    if entries == [] then []
    else
      var last := entries[|entries| - 1];
      Put(FromEntries(entries[..|entries| - 1]), last.0, last.1)
  }

  function TableKeys(t: Table): (r: seq<string>)
    ensures |r| == |t| && forall i :: 0 <= i < |r| ==> r[i] == t[i].0
  {
    seq(|t|, i requires 0 <= i < |t| => t[i].0)
  }

  /** The value of the last entry with the key. */
  function LastValue(entries: Table, key: string): int {
    if entries == [] then 0
    else if entries[|entries| - 1].0 == key then entries[|entries| - 1].1
    else LastValue(entries[..|entries| - 1], key)
  }

  lemma {:induction false} LastValueFrom(entries: Table, i: nat) returns (k: nat)
    requires i < |entries|
    ensures i <= k < |entries| && entries[k] == (entries[i].0, LastValue(entries, entries[i].0))
    ensures forall j :: k < j < |entries| ==> entries[j].0 != entries[i].0
  {
    var n := |entries| - 1;
    if entries[n].0 == entries[i].0 { k := n; } else { k := LastValueFrom(entries[..n], i); }
  }

  /** With distinct keys the last value of a key is its only one. */
  lemma {:induction false} OnlyValue(entries: Table, i: nat)
    requires i < |entries| && Distinct(TableKeys(entries))
    ensures LastValue(entries, entries[i].0) == entries[i].1
  {
    var k := LastValueFrom(entries, i);
  }

  lemma {:induction false} PutNew(t: Table, key: string, value: int)
    requires forall i :: 0 <= i < |t| ==> t[i].0 != key
    ensures Put(t, key, value) == t + [(key, value)]
  {
    if t != [] {
      PutNew(t[1..], key, value);
      assert t == [t[0]] + t[1..];
    }
  }

  lemma {:induction false} PutOld(t: Table, i: nat, value: int)
    requires i < |t| && forall j :: 0 <= j < i ==> t[j].0 != t[i].0
    ensures Put(t, t[i].0, value) == t[i := (t[i].0, value)]
  {
    if i > 0 {
      PutOld(t[1..], i - 1, value);
      assert t[i := (t[i].0, value)] == [t[0]] + t[1..][i - 1 := (t[i].0, value)];
    }
  }

  /** Building an object keeps each key once, where it first came, with the value
      it came with last. */
  lemma {:induction false} FromEntriesKeeps(entries: Table)
    ensures TableKeys(FromEntries(entries)) == Unique(TableKeys(entries))
    ensures forall i :: 0 <= i < |FromEntries(entries)| ==>
      FromEntries(entries)[i].1 == LastValue(entries, FromEntries(entries)[i].0)
  {
    if entries != [] {
      var n := |entries| - 1;
      var front, key, value := FromEntries(entries[..n]), entries[n].0, entries[n].1;
      var keys := TableKeys(front);
      FromEntriesKeeps(entries[..n]);
      assert TableKeys(entries)[..n] == TableKeys(entries[..n]);
      if key in keys {
        var i :| 0 <= i < |keys| && keys[i] == key;
        forall j | 0 <= j < i ensures front[j].0 != front[i].0 { assert keys[j] != keys[i]; }
        PutOld(front, i, value);
        forall j | 0 <= j < |front| && j != i ensures front[j].0 != key { assert keys[j] != keys[i]; }
        assert TableKeys(FromEntries(entries)) == keys;
      } else {
        forall j | 0 <= j < |front| ensures front[j].0 != key { assert keys[j] in keys; }
        PutNew(front, key, value);
        assert TableKeys(FromEntries(entries)) == keys + [key];
      }
    }
  }
}
