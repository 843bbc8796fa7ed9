/** The bounded cache of lookup results (`createTtlCache` in
    frontend/lib/lookup-guard.ts), proved against the history of its uses. */
module TtlCache {
  import opened ExpiringMap
  import opened Options

  datatype Config = Config(ttlMs: int, maxEntries: int)

  datatype Op<V> = Set(key: string, value: V, at: int) | Get(key: string, at: int)

  /** The loop of `set`: the oldest entries go while the cache is full. */
  function Evict<V>(entries: seq<Entry<string, V>>, maxEntries: int): seq<Entry<string, V>> {
    if |entries| >= maxEntries && entries != [] then Evict(entries[1..], maxEntries) else entries
  }

  function Step<V>(cfg: Config, c: seq<Entry<string, V>>, op: Op<V>): seq<Entry<string, V>> {
    match op
    case Set(key, value, at) => Put(Evict(Delete(c, key), cfg.maxEntries), Entry(key, value, at + cfg.ttlMs))
    case Get(key, at) =>
      var entry := ExpiringMap.Get(c, key);
      if entry.Some? && entry.value.expiresAt <= at then Delete(c, key) else c
  }

  function Lookup<V>(c: seq<Entry<string, V>>, key: string, at: int): Option<V> {
    var entry := ExpiringMap.Get(c, key);
    if entry.None? || entry.value.expiresAt <= at then None else Some(entry.value.value)
  }

  /** The cache after a history of uses. */
  function After<V>(cfg: Config, h: seq<Op<V>>): seq<Entry<string, V>> {
    if h == [] then [] else Step(cfg, After(cfg, h[..|h| - 1]), h[|h| - 1])
  }

  predicate NonDecreasing<V>(h: seq<Op<V>>) {
    forall i, j :: 0 <= i < j < |h| ==> h[i].at <= h[j].at
  }

  // ----------------------------------------------- what a history determines

  /** Index of the latest `set` of a key, or -1. */
  function LastSet<V>(h: seq<Op<V>>, key: string): (i: int)
    ensures -1 <= i < |h|
    ensures i >= 0 ==> h[i].Set? && h[i].key == key
    ensures forall j :: i < j < |h| && h[j].Set? ==> h[j].key != key
  {
    if h == [] then -1
    else if h[|h| - 1].Set? && h[|h| - 1].key == key then |h| - 1
    else LastSet(h[..|h| - 1], key)
  }

  /** The different keys set after position `i`. */
  function KeysSetAfter<V>(h: seq<Op<V>>, i: int): set<string>
    requires i >= -1
  {
    set j | i < j < |h| && h[j].Set? :: h[j].key
  }

  function Capacity(cfg: Config): nat { if cfg.maxEntries >= 1 then cfg.maxEntries else 1 }

  /** What `get` must answer, read off the history alone: the latest value of the
      key while it is unexpired and fewer than `maxEntries` other keys have been
      set since. */
  function Expected<V>(cfg: Config, h: seq<Op<V>>, key: string, at: int): Option<V> {
    var i := LastSet(h, key);
    if i >= 0 && at < h[i].at + cfg.ttlMs && |KeysSetAfter(h, i)| < Capacity(cfg) then Some(h[i].value) else None
  }

  // ----------------------------------------------------------- representation

  /** The entry holds what the latest `set` of its key wrote. */
  ghost predicate Holds<V>(cfg: Config, h: seq<Op<V>>, e: Entry<string, V>) {
    var i := LastSet(h, e.key);
    i >= 0 && h[i].value == e.value && e.expiresAt == h[i].at + cfg.ttlMs
  }

  ghost predicate InLastSetOrder<V>(h: seq<Op<V>>, c: seq<Entry<string, V>>) {
    forall p, q :: 0 <= p < q < |c| ==> LastSet(h, c[p].key) < LastSet(h, c[q].key)
  }

  ghost predicate Represents<V>(cfg: Config, h: seq<Op<V>>, c: seq<Entry<string, V>>) {
    (forall p :: 0 <= p < |c| ==> Holds(cfg, h, c[p])) && InLastSetOrder(h, c)
  }

  /** The keys of `keys` whose latest `set` came after position `i`. */
  ghost function Later<V>(h: seq<Op<V>>, keys: set<string>, i: int): set<string> {
    set k | k in keys && LastSet(h, k) > i
  }

  /** An unexpired key is present exactly when it was not pushed out. */
  ghost predicate Complete<V>(cfg: Config, h: seq<Op<V>>, c: seq<Entry<string, V>>, now: int) {
    forall k :: LastSet(h, k) >= 0 && now < h[LastSet(h, k)].at + cfg.ttlMs ==>
      (k in Keys(c) <==> |KeysSetAfter(h, LastSet(h, k))| < Capacity(cfg))
  }

  lemma {:induction false} EvictExact<V>(c: seq<Entry<string, V>>, maxEntries: int)
    ensures var n := if maxEntries >= 1 then maxEntries - 1 else 0;
      Evict(c, maxEntries) == if |c| > n then c[|c| - n..] else c
  {
    if |c| >= maxEntries && c != [] {
      EvictExact(c[1..], maxEntries);
      var n := if maxEntries >= 1 then maxEntries - 1 else 0;
      if |c| - 1 > n {
        assert c[1..][|c| - 1 - n..] == c[|c| - n..];
      }
    }
  }

  lemma {:induction false} DistinctCardinality<V>(c: seq<Entry<string, V>>)
    requires Distinct(c)
    ensures |Keys(c)| == |c|
  {
    if c != [] {
      KeysCons(c);
      assert c[0].key !in Keys(c[1..]);
      DistinctCardinality(c[1..]);
    } else {
      assert Keys(c) == {};
    }
  }

  /** The entries behind position `p` are the present keys set later. */
  lemma {:induction false} EntriesBehind<V>(cfg: Config, h: seq<Op<V>>, c: seq<Entry<string, V>>, p: nat)
    requires Represents(cfg, h, c) && p < |c|
    ensures |c| - p - 1 == |Later(h, Keys(c), LastSet(h, c[p].key))|
  {
    var behind := c[p + 1..];
    var newer := Later(h, Keys(c), LastSet(h, c[p].key));
    assert Distinct(behind) by {
      forall i, j | 0 <= i < j < |behind| ensures behind[i].key != behind[j].key {
        assert LastSet(h, c[p + 1 + i].key) < LastSet(h, c[p + 1 + j].key);
      }
    }
    DistinctCardinality(behind);
    forall k | k in newer ensures k in Keys(behind) {
      var q :| 0 <= q < |c| && c[q].key == k;
      assert q > p;
      assert behind[q - p - 1].key == k;
    }
    forall k | k in Keys(behind) ensures k in newer {
      var q :| 0 <= q < |behind| && behind[q].key == k;
      assert c[p + 1 + q].key == k && c[p + 1 + q].key in Keys(c);
    }
    assert newer == Keys(behind);
  }

  /** While a present key is unexpired, the keys set after it are all present. */
  lemma {:induction false} NewerArePresent<V>(
      cfg: Config, h: seq<Op<V>>, c: seq<Entry<string, V>>, now: int, key: string)
    requires Represents(cfg, h, c) && Complete(cfg, h, c, now) && NonDecreasing(h)
    requires key in Keys(c) && now < h[LastSet(h, key)].at + cfg.ttlMs && LastSet(h, key) >= 0
    ensures Later(h, Keys(c), LastSet(h, key)) == KeysSetAfter(h, LastSet(h, key))
  {
    var i := LastSet(h, key);
    forall k | k in KeysSetAfter(h, i) ensures k in Keys(c) && LastSet(h, k) > i {
      var j :| i < j < |h| && h[j].Set? && h[j].key == k;
      var l := LastSet(h, k);
      assert l >= j;
      assert KeysSetAfter(h, l) <= KeysSetAfter(h, i);
      SubsetCardinality(KeysSetAfter(h, l), KeysSetAfter(h, i));
      assert h[i].at <= h[l].at;
    }
    forall k | k in Keys(c) && LastSet(h, k) > i ensures k in KeysSetAfter(h, i) {
      var l := LastSet(h, k);
      assert h[l].Set? && h[l].key == k;
    }
  }

  lemma {:induction false} SubsetCardinality(a: set<string>, b: set<string>)
    requires a <= b
    ensures |a| <= |b|
  {
    assert b == a + (b - a);
  }

  // ------------------------------------------------------------- preservation

  lemma {:induction false} OrderedIsDistinct<V>(h: seq<Op<V>>, c: seq<Entry<string, V>>)
    requires InLastSetOrder(h, c)
    ensures Distinct(c)
  {
    forall i, j | 0 <= i < j < |c| ensures c[i].key != c[j].key {
      assert LastSet(h, c[i].key) < LastSet(h, c[j].key);
    }
  }

  lemma {:induction false} DeleteRepresents<V>(cfg: Config, h: seq<Op<V>>, c: seq<Entry<string, V>>, key: string)
    requires Represents(cfg, h, c)
    ensures Represents(cfg, h, Delete(c, key))
  {
    if key in Keys(c) {
      var p :| 0 <= p < |c| && c[p].key == key;
      OrderedIsDistinct(h, c);
      DeleteAt(c, p);
      CutRepresents(cfg, h, c, p);
    }
  }

  lemma {:induction false} CutRepresents<V>(cfg: Config, h: seq<Op<V>>, c: seq<Entry<string, V>>, p: nat)
    requires Represents(cfg, h, c) && p < |c|
    ensures Represents(cfg, h, c[..p] + c[p + 1..])
  {
    var d := c[..p] + c[p + 1..];
    forall q | 0 <= q < |d| ensures d[q] == c[if q < p then q else q + 1] {}
    forall q, r | 0 <= q < r < |d| ensures LastSet(h, d[q].key) < LastSet(h, d[r].key) {
      var q', r' := if q < p then q else q + 1, if r < p then r else r + 1;
      assert LastSet(h, c[q'].key) < LastSet(h, c[r'].key);
    }
    forall q | 0 <= q < |d| ensures Holds(cfg, h, d[q]) {
      assert Holds(cfg, h, c[if q < p then q else q + 1]);
    }
  }

  /** Reading changes nothing the history determines. */
  lemma {:induction false} GetDetermines<V>(h: seq<Op<V>>, op: Op<V>)
    requires op.Get?
    ensures forall k :: LastSet(h + [op], k) == LastSet(h, k)
    ensures forall i :: -1 <= i < |h| ==> KeysSetAfter(h + [op], i) == KeysSetAfter(h, i)
  {
    var h' := h + [op];
    assert h'[..|h|] == h;
    forall i | -1 <= i < |h| ensures KeysSetAfter(h', i) == KeysSetAfter(h, i) {
      assert forall j :: 0 <= j < |h| ==> h'[j] == h[j];
      assert h'[|h|] == op;
    }
  }

  lemma {:induction false} RepresentsAfterGet<V>(cfg: Config, h: seq<Op<V>>, c: seq<Entry<string, V>>, op: Op<V>)
    requires op.Get? && Represents(cfg, h, c)
    ensures Represents(cfg, h + [op], c)
  {
    GetDetermines(h, op);
    forall p | 0 <= p < |c| ensures Holds(cfg, h + [op], c[p]) { assert Holds(cfg, h, c[p]); }
  }

  lemma {:induction false} GetKeeps<V>(cfg: Config, h: seq<Op<V>>, c: seq<Entry<string, V>>, now: int, op: Op<V>)
    requires op.Get? && now <= op.at
    requires Represents(cfg, h, c) && Complete(cfg, h, c, now)
    ensures var h', c' := h + [op], Step(cfg, c, op);
      Represents(cfg, h', c') && Complete(cfg, h', c', op.at) && |c'| <= |c|
  {
    var h', c' := h + [op], Step(cfg, c, op);
    GetDetermines(h, op);
    DeleteRepresents(cfg, h, c, op.key);
    RepresentsAfterGet(cfg, h, c', op);
    forall k | LastSet(h', k) >= 0 && op.at < h'[LastSet(h', k)].at + cfg.ttlMs
      ensures k in Keys(c') <==> |KeysSetAfter(h', LastSet(h', k))| < Capacity(cfg)
    {
      var i := LastSet(h, k);
      assert h'[i] == h[i];
      assert KeysSetAfter(h', i) == KeysSetAfter(h, i);
    }
  }

  /** The eviction keeps the newest entries, so it keeps the order too. */
  lemma {:induction false} EvictRepresents<V>(cfg: Config, h: seq<Op<V>>, c: seq<Entry<string, V>>) returns (cut: nat)
    requires Represents(cfg, h, c)
    ensures cut <= |c| && Evict(c, cfg.maxEntries) == c[cut..]
    ensures |c| - cut <= Capacity(cfg) - 1 && (cut > 0 ==> |c| - cut == Capacity(cfg) - 1)
    ensures Represents(cfg, h, c[cut..])
    ensures forall p :: 0 <= p < |c| ==> (c[p].key in Keys(c[cut..]) <==> p >= cut)
  {
    EvictExact(c, cfg.maxEntries);
    cut := |c| - |Evict(c, cfg.maxEntries)|;
    var kept := c[cut..];
    forall p, q | 0 <= p < q < |kept| ensures LastSet(h, kept[p].key) < LastSet(h, kept[q].key) {
      assert LastSet(h, c[cut + p].key) < LastSet(h, c[cut + q].key);
    }
    forall p | 0 <= p < |c| ensures c[p].key in Keys(kept) <==> p >= cut {
      if p >= cut { assert kept[p - cut].key == c[p].key; }
      else {
        forall q | 0 <= q < |kept| ensures kept[q].key != c[p].key {
          assert LastSet(h, c[p].key) < LastSet(h, c[cut + q].key);
        }
      }
    }
  }

  /** Behind a present, unexpired key stand exactly the other keys set since. */
  lemma {:induction false} BehindAfterDelete<V>(
      cfg: Config, h: seq<Op<V>>, c: seq<Entry<string, V>>, now: int, gone: string, p: nat)
    requires Represents(cfg, h, c) && Complete(cfg, h, c, now) && NonDecreasing(h)
    requires p < |Delete(c, gone)|
    requires var i := LastSet(h, Delete(c, gone)[p].key); i >= 0 && now < h[i].at + cfg.ttlMs
    ensures var i := LastSet(h, Delete(c, gone)[p].key);
      |Delete(c, gone)| - p - 1 == |KeysSetAfter(h, i) - {gone}|
  {
    var d := Delete(c, gone);
    var key := d[p].key;
    assert key in Keys(d);
    NewerArePresent(cfg, h, c, now, key);
    DeleteRepresents(cfg, h, c, gone);
    EntriesBehind(cfg, h, d, p);
    assert Later(h, Keys(d), LastSet(h, key)) == Later(h, Keys(c), LastSet(h, key)) - {gone};
  }

  /** A key survives the eviction exactly when, with the new key, fewer than
      `maxEntries` others have been set since. */
  lemma {:induction false} SetKeepsKey<V>(
      cfg: Config, h: seq<Op<V>>, c: seq<Entry<string, V>>, now: int, op: Op<V>, key: string)
    requires op.Set? && now <= op.at && NonDecreasing(h) && key != op.key
    requires Represents(cfg, h, c) && Complete(cfg, h, c, now)
    requires LastSet(h, key) >= 0 && op.at < h[LastSet(h, key)].at + cfg.ttlMs
    ensures key in Keys(Evict(Delete(c, op.key), cfg.maxEntries)) <==>
      |KeysSetAfter(h, LastSet(h, key)) + {op.key}| < Capacity(cfg)
  {
    var since := KeysSetAfter(h, LastSet(h, key));
    var d := Delete(c, op.key);
    assert since + {op.key} == (since - {op.key}) + {op.key};
    if key in Keys(d) {
      var p :| 0 <= p < |d| && d[p].key == key;
      BehindAfterDelete(cfg, h, c, now, op.key, p);
      SurvivesByPosition(cfg, h, c, op.key, p);
    } else {
      SubsetCardinality(since, since + {op.key});
      EvictExact(d, cfg.maxEntries);
      KeysOfSuffix(d, |d| - |Evict(d, cfg.maxEntries)|);
    }
  }

  lemma {:induction false} SurvivesByPosition<V>(
      cfg: Config, h: seq<Op<V>>, c: seq<Entry<string, V>>, gone: string, p: nat)
    requires Represents(cfg, h, c) && p < |Delete(c, gone)|
    ensures var d := Delete(c, gone);
      d[p].key in Keys(Evict(d, cfg.maxEntries)) <==> |d| - p < Capacity(cfg)
  {
    DeleteRepresents(cfg, h, c, gone);
    var cut := EvictRepresents(cfg, h, Delete(c, gone));
  }

  lemma {:induction false} KeysOfSuffix<V>(c: seq<Entry<string, V>>, cut: nat)
    requires cut <= |c|
    ensures Keys(c[cut..]) <= Keys(c)
  {
    forall k | k in Keys(c[cut..]) ensures k in Keys(c) {
      var q :| 0 <= q < |c[cut..]| && c[cut..][q].key == k;
      assert c[cut + q].key == k;
    }
  }

  lemma {:induction false} SetDetermines<V>(h: seq<Op<V>>, op: Op<V>)
    requires op.Set?
    ensures forall k :: LastSet(h + [op], k) == if k == op.key then |h| else LastSet(h, k)
    ensures forall i :: -1 <= i < |h| ==> KeysSetAfter(h + [op], i) == KeysSetAfter(h, i) + {op.key}
    ensures KeysSetAfter(h + [op], |h|) == {}
  {
    var h' := h + [op];
    assert h'[..|h|] == h;
    forall i | -1 <= i < |h| ensures KeysSetAfter(h', i) == KeysSetAfter(h, i) + {op.key} {
      assert forall j :: 0 <= j < |h| ==> h'[j] == h[j];
      assert h'[|h|] == op;
    }
  }

  /** What `set` leaves: the kept entries, older than the new one at the end. */
  lemma {:induction false} SetRepresents<V>(cfg: Config, h: seq<Op<V>>, c: seq<Entry<string, V>>, op: Op<V>)
    requires op.Set? && Represents(cfg, h, c)
    ensures var c' := Step(cfg, c, op);
      && Represents(cfg, h + [op], c') && |c'| <= Capacity(cfg)
      && Keys(c') == Keys(Evict(Delete(c, op.key), cfg.maxEntries)) + {op.key}
  {
    var h' := h + [op];
    var d := Delete(c, op.key);
    var kept := Evict(d, cfg.maxEntries);
    var e := Entry(op.key, op.value, op.at + cfg.ttlMs);
    SetDetermines(h, op);
    DeleteRepresents(cfg, h, c, op.key);
    var cut := EvictRepresents(cfg, h, d);
    KeysOfSuffix(d, cut);
    KeysAppend(kept, e);
    AppendRepresents(cfg, h, kept, op);
    assert kept + [e] == Step(cfg, c, op);
  }

  lemma {:induction false} AppendRepresents<V>(cfg: Config, h: seq<Op<V>>, kept: seq<Entry<string, V>>, op: Op<V>)
    requires op.Set? && Represents(cfg, h, kept) && op.key !in Keys(kept)
    ensures Represents(cfg, h + [op], kept + [Entry(op.key, op.value, op.at + cfg.ttlMs)])
  {
    var h' := h + [op];
    var c' := kept + [Entry(op.key, op.value, op.at + cfg.ttlMs)];
    SetDetermines(h, op);
    forall q | 0 <= q < |kept| ensures kept[q].key != op.key && Holds(cfg, h', kept[q]) {
      assert kept[q].key in Keys(kept) && Holds(cfg, h, kept[q]);
    }
  }

  lemma {:induction false} SetKeeps<V>(cfg: Config, h: seq<Op<V>>, c: seq<Entry<string, V>>, now: int, op: Op<V>)
    requires op.Set? && now <= op.at && NonDecreasing(h)
    requires Represents(cfg, h, c) && Complete(cfg, h, c, now)
    ensures var h', c' := h + [op], Step(cfg, c, op);
      Represents(cfg, h', c') && Complete(cfg, h', c', op.at) && |c'| <= Capacity(cfg)
  {
    var h', c' := h + [op], Step(cfg, c, op);
    SetRepresents(cfg, h, c, op);
    SetDetermines(h, op);
    forall k | LastSet(h', k) >= 0 && op.at < h'[LastSet(h', k)].at + cfg.ttlMs
      ensures k in Keys(c') <==> |KeysSetAfter(h', LastSet(h', k))| < Capacity(cfg)
    {
      if k != op.key {
        assert h'[LastSet(h, k)] == h[LastSet(h, k)];
        SetKeepsKey(cfg, h, c, now, op, k);
      }
    }
  }

  lemma {:induction false} StepKeeps<V>(cfg: Config, h: seq<Op<V>>, c: seq<Entry<string, V>>, now: int, op: Op<V>)
    requires now <= op.at && NonDecreasing(h) && |c| <= Capacity(cfg)
    requires Represents(cfg, h, c) && Complete(cfg, h, c, now)
    ensures var h', c' := h + [op], Step(cfg, c, op);
      Represents(cfg, h', c') && Complete(cfg, h', c', op.at) && |c'| <= Capacity(cfg)
  {
    if op.Set? { SetKeeps(cfg, h, c, now, op); } else { GetKeeps(cfg, h, c, now, op); }
  }

  lemma {:induction false} HistoryInv<V>(cfg: Config, h: seq<Op<V>>)
    requires NonDecreasing(h)
    ensures Represents(cfg, h, After(cfg, h)) && |After(cfg, h)| <= Capacity(cfg)
    ensures h != [] ==> Complete(cfg, h, After(cfg, h), h[|h| - 1].at)
  {
    if h != [] {
      var g, op := h[..|h| - 1], h[|h| - 1];
      assert h == g + [op];
      HistoryInv(cfg, g);
      StepKeeps(cfg, g, After(cfg, g), if g == [] then op.at else g[|g| - 1].at, op);
    }
  }

  // ------------------------------------------------------------- main results

  /** `get` answers the latest value set for the key exactly while it is
      unexpired and fewer than `maxEntries` other keys have been set since. */
  lemma {:induction false} GetIsExpected<V>(cfg: Config, h: seq<Op<V>>, key: string, at: int)
    requires NonDecreasing(h) && (h != [] ==> h[|h| - 1].at <= at)
    ensures Lookup(After(cfg, h), key, at) == Expected(cfg, h, key, at)
  {
    HistoryInv(cfg, h);
    var c := After(cfg, h);
    var entry := ExpiringMap.Get(c, key);
    if entry.Some? {
      var p :| 0 <= p < |c| && c[p] == entry.value;
      assert Holds(cfg, h, c[p]);
    }
  }

  /** The cache never exceeds its capacity, and its entries stand in the order in
      which their keys were last set, so the head a full cache drops is the
      least recently set one. */
  lemma {:induction false} BoundedInLastSetOrder<V>(cfg: Config, h: seq<Op<V>>)
    requires NonDecreasing(h)
    ensures var c := After(cfg, h);
      && |c| <= Capacity(cfg)
      && forall p, q :: 0 <= p < q < |c| ==> LastSet(h, c[p].key) < LastSet(h, c[q].key)
  {
    HistoryInv(cfg, h);
  }

  lemma {:induction false} AfterOne<V>(cfg: Config, h: seq<Op<V>>, op: Op<V>)
    requires NonDecreasing(h) && (h != [] ==> h[|h| - 1].at <= op.at)
    ensures After(cfg, h + [op]) == Step(cfg, After(cfg, h), op) && NonDecreasing(h + [op])
  {
    assert (h + [op])[..|h|] == h;
  }

  // --------------------------------------------------------------- the object

  class Cache<V> {
    const cfg: Config
    var entries: seq<Entry<string, V>>
    ghost var history: seq<Op<V>>

    ghost predicate Valid()
      reads this
    {
      entries == After(cfg, history) && NonDecreasing(history)
    }

    /** The clock has not gone back since the last use. */
    ghost predicate Now(at: int)
      reads this
    {
      history != [] ==> history[|history| - 1].at <= at
    }

    constructor (cfg: Config)
      ensures Valid() && history == [] && this.cfg == cfg
    {
      this.cfg := cfg;
      entries, history := [], [];
    }

    method Get(key: string, at: int) returns (r: Option<V>)
      requires Valid() && Now(at)
      modifies this
      ensures Valid() && history == old(history) + [Op.Get(key, at)]
      ensures r == Expected(cfg, old(history), key, at)
    {
      GetIsExpected(cfg, history, key, at);
      AfterOne(cfg, history, Op.Get(key, at));
      history := history + [Op.Get(key, at)];
      var entry := ExpiringMap.Get(entries, key);
      if entry.None? { return None; }
      if entry.value.expiresAt <= at {
        entries := Delete(entries, key);
        return None;
      }
      return Some(entry.value.value);
    }

    method Set(key: string, value: V, at: int)
      requires Valid() && Now(at)
      modifies this
      ensures Valid() && history == old(history) + [Op.Set(key, value, at)]
      ensures |entries| <= Capacity(cfg)
    {
      ghost var op := Op.Set(key, value, at);
      AfterOne(cfg, history, op);
      BoundedInLastSetOrder(cfg, history + [op]);
      ghost var kept := Evict(Delete(entries, key), cfg.maxEntries);
      assert After(cfg, history + [op]) == Put(kept, Entry(key, value, at + cfg.ttlMs));
      entries := Delete(entries, key);
      while |entries| >= cfg.maxEntries
        invariant Evict(entries, cfg.maxEntries) == kept
        invariant history == old(history)
        decreases |entries|
      {
        if entries == [] { break; }
        entries := entries[1..];
      }
      entries := Put(entries, Entry(key, value, at + cfg.ttlMs));
      history := history + [op];
    }
  }
}
