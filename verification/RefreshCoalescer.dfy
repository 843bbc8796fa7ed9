/** The refresh-token coalescer (frontend/lib/bff-refresh-coalescer.ts).

    JavaScript runs a call without interruption up to its first suspended
    `await`, so one event of a run is one such stretch: a request arriving, or a
    rotation settling. Tokens stand for their digests (SHA-256 is taken as
    injective) and a promise is the number of the rotation it belongs to. */
module RefreshCoalescer {
  import opened ExpiringMap
  import opened Options

  type Token = string

  datatype Config = Config(graceMs: int, maxEntries: int)

  /** How `rotate()` ends. `Refused` is an outcome `succeeded` turns down. */
  datatype Result<V> = Succeeded(value: V) | Refused(value: V) | Thrown

  datatype Event<V> =
    | Call(token: Token, at: int)
    | CallThrowing(token: Token, at: int)  // a call whose `rotate()`, if invoked, throws before returning a promise
    | Settle(run: nat, result: Result<V>, at: int)

  /** What a caller gets: the remembered outcome, or the promise of a rotation. */
  datatype Answer<V> = Replay(value: V) | Wait(run: nat)

  /** `running` holds the rotations whose `rotate()` has not settled: it belongs
      to the surroundings and is never read by the coalescer. */
  datatype World<V> = World(
    inFlight: map<Token, nat>,
    remembered: seq<Entry<Token, V>>,
    nextRun: nat,
    running: map<nat, Token>,
    clock: int)

  ghost predicate Initial<V>(w: World<V>) {
    w.inFlight == map[] && w.remembered == [] && w.running == map[]
  }

  predicate IsCall<V>(e: Event<V>) { e.Call? || e.CallThrowing? }

  /** The clock does not go back, and only a rotation that runs can settle. */
  ghost predicate Enabled<V>(w: World<V>, e: Event<V>) {
    e.at >= w.clock && (e.Settle? ==> e.run in w.running)
  }

  /** What `forgetExpired(at)` leaves. */
  function Sweep<V>(entries: seq<Entry<Token, V>>, at: int, maxEntries: int): seq<Entry<Token, V>> {
    if entries == [] || (entries[0].expiresAt > at && |entries| < maxEntries) then entries
    else Sweep(entries[1..], at, maxEntries)
  }

  function AnswerOf<V>(cfg: Config, w: World<V>, e: Event<V>): Answer<V>
    requires IsCall(e)
  {
    var recent := Get(Sweep(w.remembered, e.at, cfg.maxEntries), e.token);
    if recent.Some? && recent.value.expiresAt > e.at then Replay(recent.value.value)
    else if e.token in w.inFlight then Wait(w.inFlight[e.token])
    else Wait(w.nextRun)
  }

  /** A call that invokes `rotate`. */
  ghost predicate Starts<V>(cfg: Config, w: World<V>, e: Event<V>) {
    IsCall(e) && AnswerOf(cfg, w, e).Wait? && e.token !in w.inFlight
  }

  ghost function Step<V>(cfg: Config, w: World<V>, e: Event<V>): World<V>
    requires Enabled(w, e)
  {
    if e.Settle? then
      var token := w.running[e.run];
      w.(inFlight := w.inFlight - {token},
         running := w.running - {e.run},
         remembered := if e.result.Succeeded? then Put(w.remembered, Entry(token, e.result.value, e.at + cfg.graceMs))
                       else w.remembered,
         clock := e.at)
    else
      var swept := w.(remembered := Sweep(w.remembered, e.at, cfg.maxEntries), clock := e.at);
      if !Starts(cfg, w, e) then swept
      else swept.(inFlight := w.inFlight[e.token := w.nextRun],
                  running := if e.Call? then w.running[w.nextRun := e.token] else w.running,
                  nextRun := w.nextRun + 1)
  }

  /** `ws` are the worlds between the events `es`, from a fresh coalescer on. */
  ghost predicate Run<V>(cfg: Config, ws: seq<World<V>>, es: seq<Event<V>>) {
    && |ws| == |es| + 1
    && Initial(ws[0])
    && (forall i :: 0 <= i < |es| ==> Enabled(ws[i], es[i]))
    && (forall i: nat :: i < |es| ==> Follows(cfg, ws, es, i))
  }

  /** World `i + 1` is what event `i` makes of world `i`. */
  ghost predicate Follows<V>(cfg: Config, ws: seq<World<V>>, es: seq<Event<V>>, i: nat)
    requires |ws| == |es| + 1 && i < |es| && Enabled(ws[i], es[i])
  {
    ws[i + 1] == Step(cfg, ws[i], es[i])
  }

  /** No token is remembered twice, and none beyond the grace time of now. */
  ghost predicate MemoryInv<V>(cfg: Config, remembered: seq<Entry<Token, V>>, clock: int) {
    && Distinct(remembered)
    && SortedByExpiry(remembered)
    && forall i :: 0 <= i < |remembered| ==> remembered[i].expiresAt <= clock + cfg.graceMs
  }

  /** What runs is in flight under its own number. */
  ghost predicate FlightInv(inFlight: map<Token, nat>, running: map<nat, Token>, nextRun: nat) {
    && (forall t :: t in inFlight ==> inFlight[t] < nextRun)
    && (forall r :: r in running ==> r < nextRun && running[r] in inFlight && inFlight[running[r]] == r)
  }

  ghost predicate Inv<V>(cfg: Config, w: World<V>) {
    && MemoryInv(cfg, w.remembered, w.clock)
    && FlightInv(w.inFlight, w.running, w.nextRun)
    && w.inFlight.Keys !! Keys(w.remembered)
  }

  // ---------------------------------------------------------------- the sweep

  lemma {:induction false} SweepIsSuffix<V>(entries: seq<Entry<Token, V>>, at: int, maxEntries: int) returns (n: nat)
    ensures n <= |entries| && Sweep(entries, at, maxEntries) == entries[n..]
    ensures forall i :: 0 <= i < n ==> entries[i].expiresAt <= at || |entries| - i >= maxEntries
    ensures n < |entries| ==> entries[n].expiresAt > at && |entries| - n < maxEntries
  {
    if entries == [] || (entries[0].expiresAt > at && |entries| < maxEntries) {
      n := 0;
    } else {
      var m := SweepIsSuffix(entries[1..], at, maxEntries);
      n := m + 1;
      assert entries[1..][m..] == entries[n..];
      forall i | 0 <= i < n ensures entries[i].expiresAt <= at || |entries| - i >= maxEntries {
        if i > 0 { assert entries[1..][i - 1] == entries[i]; }
      }
    }
  }

  /** Although the loop stops at the first entry it keeps, on entries in expiry
      order it forgets an entry exactly when that entry has expired or has
      `maxEntries - 1` or more entries behind it. */
  lemma {:induction false} SweepExact<V>(entries: seq<Entry<Token, V>>, at: int, maxEntries: int)
    requires SortedByExpiry(entries) && Distinct(entries)
    ensures var kept := Sweep(entries, at, maxEntries);
      && SortedByExpiry(kept) && Distinct(kept)
      && (maxEntries >= 1 ==> |kept| < maxEntries)
      && (forall i :: 0 <= i < |entries| ==>
            (entries[i].key in Keys(kept) <==> entries[i].expiresAt > at && |entries| - i < maxEntries))
      && (forall e :: e in kept ==> e in entries)
  {
    var n := SweepIsSuffix(entries, at, maxEntries);
    var kept := entries[n..];
    forall i | 0 <= i < |entries|
      ensures entries[i].key in Keys(kept) <==> entries[i].expiresAt > at && |entries| - i < maxEntries
    {
      if i >= n {
        assert kept[i - n] == entries[i];
        assert entries[n].expiresAt <= entries[i].expiresAt;
      } else {
        forall j | 0 <= j < |kept| ensures kept[j].key != entries[i].key {
          assert kept[j] == entries[n + j];
        }
      }
    }
  }

  /** Keys surviving a sweep are keys from before it. */
  lemma {:induction false} SweepKeys<V>(entries: seq<Entry<Token, V>>, at: int, maxEntries: int)
    ensures Keys(Sweep(entries, at, maxEntries)) <= Keys(entries)
  {
    var n := SweepIsSuffix(entries, at, maxEntries);
    forall k | k in Keys(entries[n..]) ensures k in Keys(entries) {
      var i :| 0 <= i < |entries[n..]| && entries[n..][i].key == k;
      assert entries[n + i].key == k;
    }
  }

  // ------------------------------------------------------------- every step

  lemma {:induction false} SettleKeepsInv<V>(cfg: Config, w: World<V>, e: Event<V>)
    requires Inv(cfg, w) && Enabled(w, e) && e.Settle?
    ensures Inv(cfg, Step(cfg, w, e))
  {
    var token, x := w.running[e.run], Step(cfg, w, e);
    assert token in w.inFlight.Keys && token !in Keys(w.remembered);
    FlightEnds(w.inFlight, w.running, w.nextRun, e.run);
    assert MemoryInv(cfg, w.remembered, e.at);
    if e.result.Succeeded? {
      RememberKeepsOrder(cfg, w.remembered, Entry(token, e.result.value, e.at + cfg.graceMs), e.at);
      assert Keys(x.remembered) == Keys(w.remembered) + {token};
    } else {
      assert x.remembered == w.remembered;
    }
    assert x.inFlight.Keys == w.inFlight.Keys - {token};
  }

  /** The end of a rotation takes its token, and no other, out of flight. */
  lemma {:induction false} FlightEnds(inFlight: map<Token, nat>, running: map<nat, Token>, nextRun: nat, run: nat)
    requires run in running && FlightInv(inFlight, running, nextRun)
    ensures FlightInv(inFlight - {running[run]}, running - {run}, nextRun)
    ensures (inFlight - {running[run]}).Keys == inFlight.Keys - {running[run]}
  {
  }

  /** A success is remembered last, behind every entry that expires no later. */
  lemma {:induction false} RememberKeepsOrder<V>(
      cfg: Config, entries: seq<Entry<Token, V>>, e: Entry<Token, V>, clock: int)
    requires MemoryInv(cfg, entries, clock) && e.key !in Keys(entries) && e.expiresAt == clock + cfg.graceMs
    ensures Put(entries, e) == entries + [e] && MemoryInv(cfg, entries + [e], clock)
    ensures Keys(entries + [e]) == Keys(entries) + {e.key}
  {
    KeysAppend(entries, e);
    forall i | 0 <= i < |entries| ensures entries[i].key != e.key { assert entries[i].key in Keys(entries); }
  }

  lemma {:induction false} SweepKeepsInv<V>(cfg: Config, w: World<V>, at: int)
    requires Inv(cfg, w) && at >= w.clock
    ensures Inv(cfg, w.(remembered := Sweep(w.remembered, at, cfg.maxEntries), clock := at))
  {
    SweepExact(w.remembered, at, cfg.maxEntries);
    SweepKeys(w.remembered, at, cfg.maxEntries);
    var n := SweepIsSuffix(w.remembered, at, cfg.maxEntries);
  }

  lemma {:induction false} StepKeepsInv<V>(cfg: Config, w: World<V>, e: Event<V>)
    requires Inv(cfg, w) && Enabled(w, e)
    ensures Inv(cfg, Step(cfg, w, e))
  {
    if e.Settle? {
      SettleKeepsInv(cfg, w, e);
    } else {
      SweepKeepsInv(cfg, w, e.at);
      if Starts(cfg, w, e) {
        var swept := Sweep(w.remembered, e.at, cfg.maxEntries);
        if e.token in Keys(swept) { StillRemembered(cfg, w, e); }
      }
    }
  }

  lemma {:induction false} RunInv<V>(cfg: Config, ws: seq<World<V>>, es: seq<Event<V>>, i: nat)
    requires Run(cfg, ws, es) && i < |ws|
    ensures Inv(cfg, ws[i])
  {
    if i > 0 {
      RunInv(cfg, ws, es, i - 1);
      assert Follows(cfg, ws, es, i - 1);
      StepKeepsInv(cfg, ws[i - 1], es[i - 1]);
    }
  }

  // ------------------------------------------------------------ whole runs

  /** No two rotations of one token ever overlap, and every other caller of the
      token meanwhile is handed the running one. */
  lemma {:induction false} OneRotationPerToken<V>(cfg: Config, ws: seq<World<V>>, es: seq<Event<V>>, i: nat)
    requires Run(cfg, ws, es) && i < |ws|
    ensures forall r, s :: r in ws[i].running && s in ws[i].running && ws[i].running[r] == ws[i].running[s] ==> r == s
    ensures i < |es| && Starts(cfg, ws[i], es[i]) ==> es[i].token !in ws[i].running.Values
    ensures forall r :: i < |es| && IsCall(es[i]) && r in ws[i].running && ws[i].running[r] == es[i].token ==>
      AnswerOf(cfg, ws[i], es[i]) == Wait(r)
  {
    RunInv(cfg, ws, es, i);
    if i < |es| && IsCall(es[i]) {
      SweepKeys(ws[i].remembered, es[i].at, cfg.maxEntries);
    }
  }

  /** An entry is remembered because of a success whose token has stayed
      remembered ever since. */
  ghost predicate Origin<V>(cfg: Config, ws: seq<World<V>>, es: seq<Event<V>>, i: nat, n: nat, e: Entry<Token, V>)
    requires Run(cfg, ws, es) && i < n < |ws|
  {
    && es[i].Settle? && es[i].result == Succeeded(e.value)
    && ws[i].running[es[i].run] == e.key && e.expiresAt == es[i].at + cfg.graceMs
    && forall m :: i < m <= n ==> e.key in Keys(ws[m].remembered)
  }

  lemma {:induction false} RememberedHasOrigin<V>(
      cfg: Config, ws: seq<World<V>>, es: seq<Event<V>>, n: nat, e: Entry<Token, V>)
    returns (i: nat)
    requires Run(cfg, ws, es) && n < |ws| && e in ws[n].remembered
    ensures i < n && Origin(cfg, ws, es, i, n, e)
  {
    InKeys(ws[n].remembered, e);
    if e in ws[n - 1].remembered {
      i := RememberedHasOrigin(cfg, ws, es, n - 1, e);
    } else {
      i := n - 1;
      NewlyRemembered(cfg, ws, es, i, e);
    }
  }

  lemma {:induction false} InKeys<V>(entries: seq<Entry<Token, V>>, e: Entry<Token, V>)
    requires e in entries
    ensures e.key in Keys(entries)
  {
    var k :| 0 <= k < |entries| && entries[k] == e;
    assert entries[k].key in Keys(entries);
  }

  lemma {:induction false} NewlyRemembered<V>(
      cfg: Config, ws: seq<World<V>>, es: seq<Event<V>>, n: nat, e: Entry<Token, V>)
    requires Run(cfg, ws, es) && n < |es| && e in ws[n + 1].remembered && e !in ws[n].remembered
    ensures es[n].Settle? && es[n].result == Succeeded(e.value)
    ensures ws[n].running[es[n].run] == e.key && e.expiresAt == es[n].at + cfg.graceMs
  {
    if es[n].Settle? {
      RunSettles(cfg, ws, es, n);
    } else {
      RunInv(cfg, ws, es, n);
      RunSweeps(cfg, ws, es, n);
      SweepExact(ws[n].remembered, es[n].at, cfg.maxEntries);
    }
  }

  /** Whatever is replayed is the outcome of the token's latest rotation, which
      succeeded less than the grace time ago: a refused or thrown rotation is
      never replayed, and no rotation of the token started in between. */
  lemma {:induction false} ReplayIsLatestSuccess<V>(cfg: Config, ws: seq<World<V>>, es: seq<Event<V>>, j: nat)
      returns (i: nat)
    requires Run(cfg, ws, es) && j < |es| && IsCall(es[j]) && AnswerOf(cfg, ws[j], es[j]).Replay?
    ensures i < j && es[i].Settle? && es[i].result == Succeeded(AnswerOf(cfg, ws[j], es[j]).value)
    ensures ws[i].running[es[i].run] == es[j].token && es[j].at < es[i].at + cfg.graceMs
    ensures forall m :: i < m <= j && IsCall(es[m]) && es[m].token == es[j].token ==> !Starts(cfg, ws[m], es[m])
  {
    var w, e := ws[j], es[j];
    RunInv(cfg, ws, es, j);
    SweepExact(w.remembered, e.at, cfg.maxEntries);
    var entry := Get(Sweep(w.remembered, e.at, cfg.maxEntries), e.token).value;
    i := RememberedHasOrigin(cfg, ws, es, j, entry);
    forall m | i < m <= j && IsCall(es[m]) && es[m].token == e.token ensures !Starts(cfg, ws[m], es[m]) {
      if m == j {
      } else {
        assert e.token in Keys(ws[m].remembered) && e.token in Keys(ws[m + 1].remembered);
        RunInv(cfg, ws, es, m);
        assert Follows(cfg, ws, es, m);
        StillRemembered(cfg, ws[m], es[m]);
      }
    }
  }

  /** A call whose token survives the sweep is answered from memory. */
  lemma {:induction false} StillRemembered<V>(cfg: Config, w: World<V>, e: Event<V>)
    requires Inv(cfg, w) && IsCall(e) && e.token in Keys(Sweep(w.remembered, e.at, cfg.maxEntries))
    ensures AnswerOf(cfg, w, e).Replay?
  {
    var kept := Sweep(w.remembered, e.at, cfg.maxEntries);
    SweepExact(w.remembered, e.at, cfg.maxEntries);
    var entry := Get(kept, e.token).value;
    var i :| 0 <= i < |w.remembered| && w.remembered[i] == entry;
    assert w.remembered[i].key in Keys(kept);
  }

  // ------------------------------------------------------- the grace time, exactly

  /** Rotations that succeed among the events [lo, hi). */
  function Successes<V>(es: seq<Event<V>>, lo: nat, hi: nat): nat
    requires hi <= |es|
    decreases hi - lo
  {
    if lo >= hi then 0
    else Successes(es, lo, hi - 1) + if es[hi - 1].Settle? && es[hi - 1].result.Succeeded? then 1 else 0
  }

  /** The entry stands with `behind` entries behind it, or it was crowded out. */
  ghost predicate Stands<V>(cfg: Config, remembered: seq<Entry<Token, V>>, entry: Entry<Token, V>, behind: nat) {
    if entry.key in Keys(remembered) then behind < |remembered| && remembered[|remembered| - 1 - behind] == entry
    else behind >= cfg.maxEntries - 1
  }

  lemma {:induction false} AppendKeepsPlace<V>(
      cfg: Config, entries: seq<Entry<Token, V>>, e: Entry<Token, V>, entry: Entry<Token, V>, behind: nat)
    requires Stands(cfg, entries, entry, behind) && e.key != entry.key
    ensures Stands(cfg, entries + [e], entry, behind + 1)
  {
    KeysAppend(entries, e);
  }

  /** What a settled rotation changes in a run. */
  lemma {:induction false} RunSettles<V>(cfg: Config, ws: seq<World<V>>, es: seq<Event<V>>, n: nat)
    requires Run(cfg, ws, es) && n < |es| && es[n].Settle?
    ensures var token := ws[n].running[es[n].run];
      && token in ws[n].inFlight && ws[n + 1].inFlight == ws[n].inFlight - {token}
      && ws[n + 1].remembered ==
           if es[n].result.Succeeded?
           then ws[n].remembered + [Entry(token, es[n].result.value, es[n].at + cfg.graceMs)]
           else ws[n].remembered
  {
    RunInv(cfg, ws, es, n);
    OneStep(cfg, ws, es, n);
    var token := ws[n].running[es[n].run];
    assert token in ws[n].inFlight.Keys && token !in Keys(ws[n].remembered);
  }

  /** What a call changes in a run. */
  lemma {:induction false} RunSweeps<V>(cfg: Config, ws: seq<World<V>>, es: seq<Event<V>>, n: nat)
    requires Run(cfg, ws, es) && n < |es| && IsCall(es[n])
    ensures ws[n + 1].remembered == Sweep(ws[n].remembered, es[n].at, cfg.maxEntries)
    ensures ws[n + 1].inFlight.Keys ==
      if Starts(cfg, ws[n], es[n]) then ws[n].inFlight.Keys + {es[n].token} else ws[n].inFlight.Keys
  {
    OneStep(cfg, ws, es, n);
  }

  /** One event of a run. */
  lemma {:induction false} RunKeepsPlace<V>(
      cfg: Config, ws: seq<World<V>>, es: seq<Event<V>>, n: nat, entry: Entry<Token, V>, behind: nat)
    requires Run(cfg, ws, es) && n < |es| && entry.expiresAt > es[n].at && entry.key !in ws[n].inFlight
    requires IsCall(es[n]) && es[n].token == entry.key ==> !Starts(cfg, ws[n], es[n])
    requires Stands(cfg, ws[n].remembered, entry, behind)
    ensures entry.key !in ws[n + 1].inFlight
    ensures Stands(cfg, ws[n + 1].remembered, entry,
                   behind + if es[n].Settle? && es[n].result.Succeeded? then 1 else 0)
  {
    if es[n].Settle? {
      RunSettles(cfg, ws, es, n);
      if es[n].result.Succeeded? {
        var e := Entry(ws[n].running[es[n].run], es[n].result.value, es[n].at + cfg.graceMs);
        AppendKeepsPlace(cfg, ws[n].remembered, e, entry, behind);
      }
    } else {
      RunInv(cfg, ws, es, n);
      RunSweeps(cfg, ws, es, n);
      assert entry.key !in ws[n + 1].inFlight.Keys;
      SweepKeepsPlace(cfg, ws[n].remembered, es[n].at, entry, behind);
    }
  }

  /** A sweep drops an unexpired entry exactly when it is crowded out. */
  lemma {:induction false} SweepKeepsPlace<V>(
      cfg: Config, entries: seq<Entry<Token, V>>, at: int, entry: Entry<Token, V>, behind: nat)
    requires SortedByExpiry(entries) && Distinct(entries) && entry.expiresAt > at
    requires Stands(cfg, entries, entry, behind)
    ensures var kept := Sweep(entries, at, cfg.maxEntries);
      Stands(cfg, kept, entry, behind) && (entry.key in Keys(kept) <==> behind < cfg.maxEntries - 1)
  {
    var kept := Sweep(entries, at, cfg.maxEntries);
    var n := SweepIsSuffix(entries, at, cfg.maxEntries);
    SweepKeys(entries, at, cfg.maxEntries);
    if entry.key in Keys(entries) {
      var k := |entries| - 1 - behind;
      SweepExact(entries, at, cfg.maxEntries);
      assert entries[k].key in Keys(kept) <==> |entries| - k < cfg.maxEntries;
      if entry.key in Keys(kept) {
        assert n <= k by { SweptAreGone(entries, n, k); }
        assert kept[k - n] == entry;
      }
    }
  }

  lemma {:induction false} SweptAreGone<V>(entries: seq<Entry<Token, V>>, n: nat, k: nat)
    requires Distinct(entries) && n <= |entries| && k < |entries| && entries[k].key in Keys(entries[n..])
    ensures n <= k
  {
    var i :| 0 <= i < |entries[n..]| && entries[n..][i].key == entries[k].key;
    assert entries[n + i].key == entries[k].key;
  }

  /** The event is a rotation of the token that succeeds. */
  predicate Succeeds<V>(w: World<V>, e: Event<V>, token: Token) {
    e.Settle? && e.result.Succeeded? && e.run in w.running && w.running[e.run] == token
  }

  /** What a success leaves in memory. */
  function EntryOf<V>(cfg: Config, e: Event<V>, token: Token): Entry<Token, V>
    requires e.Settle? && e.result.Succeeded?
  {
    Entry(token, e.result.value, e.at + cfg.graceMs)
  }

  /** No rotation of the token starts between `i` and `j`. */
  ghost predicate Undisturbed<V>(cfg: Config, ws: seq<World<V>>, es: seq<Event<V>>, i: nat, j: nat, token: Token)
    requires j <= |es| && j <= |ws|
  {
    forall m :: i < m < j && IsCall(es[m]) && es[m].token == token ==> !Starts(cfg, ws[m], es[m])
  }

  /** Until a new rotation of its token starts, a success keeps its place behind
      exactly the successes after it, or was crowded out by them. */
  lemma {:induction false} StaysRemembered<V>(
      cfg: Config, ws: seq<World<V>>, es: seq<Event<V>>, i: nat, j: nat, token: Token)
    requires Run(cfg, ws, es) && i < j < |es| && Succeeds(ws[i], es[i], token)
    requires es[j].at < es[i].at + cfg.graceMs && Undisturbed(cfg, ws, es, i, j, token)
    ensures token !in ws[j].inFlight
    ensures Stands(cfg, ws[j].remembered, EntryOf(cfg, es[i], token), Successes(es, i + 1, j))
  {
    if i == j - 1 {
      FirstPlace(cfg, ws, es, i, token);
    } else {
      ClockGrows(cfg, ws, es, j - 1, j);
      StaysRemembered(cfg, ws, es, i, j - 1, token);
      RunKeepsPlace(cfg, ws, es, j - 1, EntryOf(cfg, es[i], token), Successes(es, i + 1, j - 1));
    }
  }

  lemma {:induction false} OneStep<V>(cfg: Config, ws: seq<World<V>>, es: seq<Event<V>>, n: nat)
    requires Run(cfg, ws, es) && n < |es|
    ensures Enabled(ws[n], es[n]) && ws[n + 1] == Step(cfg, ws[n], es[n]) && ws[n + 1].clock == es[n].at
    ensures n + 1 < |es| ==> es[n].at <= es[n + 1].at
  {
    assert Follows(cfg, ws, es, n);
    assert n + 1 < |es| ==> Follows(cfg, ws, es, n + 1);
  }

  lemma {:induction false} FirstPlace<V>(cfg: Config, ws: seq<World<V>>, es: seq<Event<V>>, i: nat, token: Token)
    requires Run(cfg, ws, es) && i < |es| && Succeeds(ws[i], es[i], token)
    ensures token !in ws[i + 1].inFlight && Stands(cfg, ws[i + 1].remembered, EntryOf(cfg, es[i], token), 0)
  {
    RunSettles(cfg, ws, es, i);
    KeysAppend(ws[i].remembered, EntryOf(cfg, es[i], token));
  }

  /** Within the grace time, and until a new rotation of the token starts, a call
      is answered with the outcome of the success if and only if fewer than
      `maxEntries - 1` other rotations have succeeded since; in exactly the other
      case it starts a rotation with the token already used. */
  lemma {:induction false} GraceReplaysExactlyWhen<V>(cfg: Config, ws: seq<World<V>>, es: seq<Event<V>>, i: nat, j: nat)
    requires Run(cfg, ws, es) && i < j < |es| && IsCall(es[j]) && Succeeds(ws[i], es[i], es[j].token)
    requires es[j].at < es[i].at + cfg.graceMs && Undisturbed(cfg, ws, es, i, j, es[j].token)
    ensures AnswerOf(cfg, ws[j], es[j]) == Replay(es[i].result.value) <==> Successes(es, i + 1, j) < cfg.maxEntries - 1
    ensures Starts(cfg, ws[j], es[j]) <==> Successes(es, i + 1, j) >= cfg.maxEntries - 1
  {
    RunInv(cfg, ws, es, j);
    StaysRemembered(cfg, ws, es, i, j, es[j].token);
    CallAtPlace(cfg, ws[j], es[j], EntryOf(cfg, es[i], es[j].token), Successes(es, i + 1, j));
  }

  lemma {:induction false} CallAtPlace<V>(cfg: Config, w: World<V>, e: Event<V>, entry: Entry<Token, V>, behind: nat)
    requires Inv(cfg, w) && IsCall(e) && e.token == entry.key && entry.key !in w.inFlight && entry.expiresAt > e.at
    requires Stands(cfg, w.remembered, entry, behind)
    ensures if behind < cfg.maxEntries - 1 then AnswerOf(cfg, w, e) == Replay(entry.value)
      else AnswerOf(cfg, w, e).Wait? && Starts(cfg, w, e)
  {
    SweptPlace(cfg, w.remembered, e.at, entry, behind);
  }

  /** What a sweep leaves of an unexpired entry. */
  lemma {:induction false} SweptPlace<V>(
      cfg: Config, entries: seq<Entry<Token, V>>, at: int, entry: Entry<Token, V>, behind: nat)
    requires SortedByExpiry(entries) && Distinct(entries) && entry.expiresAt > at
    requires Stands(cfg, entries, entry, behind)
    ensures Get(Sweep(entries, at, cfg.maxEntries), entry.key) ==
      if behind < cfg.maxEntries - 1 then Some(entry) else None
  {
    var kept := Sweep(entries, at, cfg.maxEntries);
    SweepKeepsPlace(cfg, entries, at, entry, behind);
    if entry.key in Keys(kept) {
      StaysDistinct(entries, at, cfg.maxEntries);
      GetUnique(kept, |kept| - 1 - behind);
    }
  }

  lemma {:induction false} StaysDistinct<V>(entries: seq<Entry<Token, V>>, at: int, maxEntries: int)
    requires SortedByExpiry(entries) && Distinct(entries)
    ensures Distinct(Sweep(entries, at, maxEntries))
  {
    SweepExact(entries, at, maxEntries);
  }

  lemma {:induction false} ClockGrows<V>(cfg: Config, ws: seq<World<V>>, es: seq<Event<V>>, i: nat, j: nat)
    requires Run(cfg, ws, es) && i <= j < |es|
    ensures es[i].at <= es[j].at
    decreases j
  {
    if i < j {
      ClockGrows(cfg, ws, es, i, j - 1);
      OneStep(cfg, ws, es, j - 1);
    }
  }

  lemma {:induction false} SuccessesGrow<V>(es: seq<Event<V>>, lo: nat, mid: nat, hi: nat)
    requires mid <= hi <= |es|
    ensures Successes(es, lo, mid) <= Successes(es, lo, hi)
    decreases hi
  {
    if mid < hi { SuccessesGrow(es, lo, mid, hi - 1); }
  }

  /** So inside the grace time no rotation of the token starts at all before
      `maxEntries - 1` other rotations have succeeded, and every call up to then
      is answered with the outcome. */
  lemma {:induction false} NoSecondRotationWithinCapacity<V>(
      cfg: Config, ws: seq<World<V>>, es: seq<Event<V>>, i: nat, j: nat)
    requires Run(cfg, ws, es) && i < j < |es| && IsCall(es[j]) && Succeeds(ws[i], es[i], es[j].token)
    requires es[j].at < es[i].at + cfg.graceMs && Successes(es, i + 1, j) < cfg.maxEntries - 1
    ensures AnswerOf(cfg, ws[j], es[j]) == Replay(es[i].result.value) && !Starts(cfg, ws[j], es[j])
    decreases j
  {
    forall m | i < m < j && IsCall(es[m]) && es[m].token == es[j].token ensures !Starts(cfg, ws[m], es[m]) {
      ClockGrows(cfg, ws, es, m, j);
      SuccessesGrow(es, i + 1, m, j);
      NoSecondRotationWithinCapacity(cfg, ws, es, i, m);
    }
    GraceReplaysExactlyWhen(cfg, ws, es, i, j);
  }

  /** The second rotation is reached: with room for two entries, another success
      right after the one of `a` makes the next call with `a` rotate it again. */
  lemma {:induction false} EvictionRotatesTwice<V>(a: Token, b: Token, x: V, y: V)
    returns (ws: seq<World<V>>, es: seq<Event<V>>)
    requires a != b
    ensures var cfg := Config(10, 2);
      && Run(cfg, ws, es) && |es| == 5
      && Starts(cfg, ws[0], es[0]) && es[0] == Call(a, 0)
      && es[2] == Settle(0, Succeeded(x), 0) && ws[2].running[0] == a
      && Starts(cfg, ws[4], es[4]) && es[4] == Call(a, 1)
  {
    var cfg := Config(10, 2);
    ws, es := TwoSuccesses(a, b, x, y);
    ws, es := RunBy(cfg, ws, es, Call(a, 1));
    assert Successes(es, 3, 4) == Successes(es, 3, 3) + 1;
    GraceReplaysExactlyWhen(cfg, ws, es, 2, 4);
  }

  /** A run goes on with any event that is enabled. */
  lemma {:induction false} RunBy<V>(cfg: Config, ws: seq<World<V>>, es: seq<Event<V>>, e: Event<V>)
    returns (more: seq<World<V>>, events: seq<Event<V>>)
    requires Run(cfg, ws, es) && Enabled(ws[|es|], e)
    ensures events == es + [e] && |more| == |ws| + 1 && Run(cfg, more, events)
    ensures more[..|ws|] == ws && more[|ws|] == Step(cfg, ws[|es|], e)
  {
    more, events := ws + [Step(cfg, ws[|es|], e)], es + [e];
    forall i: nat | i < |events| ensures Enabled(more[i], events[i]) && Follows(cfg, more, events, i) {
      assert i < |es| ==> Follows(cfg, ws, es, i) && more[i + 1] == ws[i + 1];
    }
  }

  lemma {:induction false} TwoSuccesses<V>(a: Token, b: Token, x: V, y: V)
    returns (ws: seq<World<V>>, es: seq<Event<V>>)
    requires a != b
    ensures es == [Call(a, 0), Call(b, 0), Settle(0, Succeeded(x), 0), Settle(1, Succeeded(y), 0)]
    ensures Run(Config(10, 2), ws, es) && ws[4].clock == 0
    ensures Starts(Config(10, 2), ws[0], es[0]) && 0 in ws[2].running && ws[2].running[0] == a
  {
    var cfg := Config(10, 2);
    ws, es := TwoStarts(a, b);
    ws, es := RunBy(cfg, ws, es, Settle(0, Succeeded(x), 0));
    ws, es := RunBy(cfg, ws, es, Settle(1, Succeeded(y), 0));
  }

  lemma {:induction false} TwoStarts<V>(a: Token, b: Token) returns (ws: seq<World<V>>, es: seq<Event<V>>)
    requires a != b
    ensures es == [Call(a, 0), Call(b, 0)] && Run(Config(10, 2), ws, es)
    ensures Starts(Config(10, 2), ws[0], es[0]) && ws[2].running == map[0 := a, 1 := b] && ws[2].clock == 0
  {
    var cfg := Config(10, 2);
    ws, es := [World(map[], [], 0, map[], 0)], [];
    ws, es := RunBy(cfg, ws, es, Call(a, 0));
    ws, es := RunBy(cfg, ws, es, Call(b, 0));
  }

  // ------------------------------------- in-flight entries without a rotation

  /** A call that hits a `rotate` throwing before it returns a promise leaves an
      in-flight entry nobody removes (the `finally` runs before `inFlight.set`):
      from then on every call of that token waits on the dead promise. */
  lemma {:induction false} ThrowingStartSticks<V>(cfg: Config, ws: seq<World<V>>, es: seq<Event<V>>, i: nat, j: nat)
    requires Run(cfg, ws, es) && i < j < |ws|
    requires es[i].CallThrowing? && Starts(cfg, ws[i], es[i])
    ensures es[i].token in ws[j].inFlight && ws[j].inFlight[es[i].token] == ws[i].nextRun
    ensures ws[i].nextRun !in ws[j].running && ws[i].nextRun < ws[j].nextRun
    ensures j < |es| && IsCall(es[j]) && es[j].token == es[i].token ==>
      AnswerOf(cfg, ws[j], es[j]) == Wait(ws[i].nextRun)
  {
    if i < j - 1 {
      ThrowingStartSticks(cfg, ws, es, i, j - 1);
      OneStep(cfg, ws, es, j - 1);
      RunInv(cfg, ws, es, j - 1);
      DeadStays(cfg, ws[j - 1], es[j - 1], es[i].token, ws[i].nextRun);
    } else {
      OneStep(cfg, ws, es, i);
      RunInv(cfg, ws, es, i);
    }
    RunInv(cfg, ws, es, j);
    if j < |es| && IsCall(es[j]) && es[j].token == es[i].token { InFlightIsJoined(cfg, ws[j], es[j]); }
  }

  /** The dead entry of a rotation that never runs outlives every step. */
  lemma {:induction false} DeadStays<V>(cfg: Config, w: World<V>, e: Event<V>, token: Token, run: nat)
    requires Inv(cfg, w) && Enabled(w, e)
    requires token in w.inFlight && w.inFlight[token] == run && run !in w.running && run < w.nextRun
    ensures var x := Step(cfg, w, e);
      token in x.inFlight && x.inFlight[token] == run && run !in x.running && run < x.nextRun
  {
  }

  lemma {:induction false} InFlightIsJoined<V>(cfg: Config, w: World<V>, e: Event<V>)
    requires Inv(cfg, w) && IsCall(e) && e.token in w.inFlight
    ensures AnswerOf(cfg, w, e) == Wait(w.inFlight[e.token])
  {
    SweepKeys(w.remembered, e.at, cfg.maxEntries);
    assert e.token in w.inFlight.Keys;
  }

  /** The in-flight tokens are exactly the tokens of running rotations if and
      only if no rotation ever threw before returning its promise. */
  lemma {:induction false} InFlightIsRunning<V>(cfg: Config, ws: seq<World<V>>, es: seq<Event<V>>, n: nat)
    requires Run(cfg, ws, es) && n < |ws|
    ensures ws[n].inFlight.Keys == ws[n].running.Values <==>
      forall i :: 0 <= i < n && es[i].CallThrowing? ==> !Starts(cfg, ws[i], es[i])
  {
    if i :| 0 <= i < n && es[i].CallThrowing? && Starts(cfg, ws[i], es[i]) {
      StuckInFlight(cfg, ws, es, i, n);
    } else if n > 0 {
      InFlightIsRunning(cfg, ws, es, n - 1);
      RunInv(cfg, ws, es, n - 1);
      assert Follows(cfg, ws, es, n - 1);
      RunningStep(cfg, ws[n - 1], es[n - 1]);
    }
  }

  lemma {:induction false} StuckInFlight<V>(cfg: Config, ws: seq<World<V>>, es: seq<Event<V>>, i: nat, n: nat)
    requires Run(cfg, ws, es) && i < n < |ws| && es[i].CallThrowing? && Starts(cfg, ws[i], es[i])
    ensures es[i].token in ws[n].inFlight && es[i].token !in ws[n].running.Values
  {
    RunInv(cfg, ws, es, n);
    ThrowingStartSticks(cfg, ws, es, i, n);
  }

  lemma {:induction false} RunningStep<V>(cfg: Config, w: World<V>, e: Event<V>)
    requires Inv(cfg, w) && Enabled(w, e) && w.inFlight.Keys == w.running.Values
    requires e.CallThrowing? ==> !Starts(cfg, w, e)
    ensures var x := Step(cfg, w, e); x.inFlight.Keys == x.running.Values
  {
    var x := Step(cfg, w, e);
    forall t | t in x.inFlight.Keys ensures t in x.running.Values {
      if t in w.inFlight {
        var r :| r in w.running && w.running[r] == t;
        assert r in x.running && x.running[r] == t;
      } else {
        assert x.running[w.nextRun] == t;
      }
    }
    forall t | t in x.running.Values ensures t in x.inFlight.Keys {
      var r :| r in x.running && x.running[r] == t;
      if r in w.running { assert w.running[r] == t; }
    }
  }

  // -------------------------------------------------------------- the object

  class Coalescer<V> {
    const cfg: Config
    var inFlight: map<Token, nat>
    var remembered: seq<Entry<Token, V>>
    var nextRun: nat
    ghost var running: map<nat, Token>
    ghost var clock: int

    ghost function View(): World<V>
      reads this
    {
      World(inFlight, remembered, nextRun, running, clock)
    }

    constructor (cfg: Config, ghost now: int)
      ensures Initial(View()) && clock == now && this.cfg == cfg
    {
      this.cfg := cfg;
      inFlight, remembered, nextRun, running, clock := map[], [], 0, map[], now;
    }

    method ForgetExpired(at: int)
      modifies this`remembered
      ensures remembered == Sweep(old(remembered), at, cfg.maxEntries)
    {
      while remembered != []
        invariant Sweep(remembered, at, cfg.maxEntries) == Sweep(old(remembered), at, cfg.maxEntries)
        decreases |remembered|
      {
        if remembered[0].expiresAt > at && |remembered| < cfg.maxEntries { break; }
        remembered := remembered[1..];
      }
    }

    /** `throwing` says what `rotate()` does if it is invoked. */
    method Request(token: Token, at: int, throwing: bool) returns (answer: Answer<V>)
      requires Inv(cfg, View()) && at >= clock
      modifies this
      ensures var e := if throwing then CallThrowing(token, at) else Call(token, at);
        answer == AnswerOf(cfg, old(View()), e) && View() == Step(cfg, old(View()), e)
      ensures Inv(cfg, View())
    {
      ghost var e: Event<V> := if throwing then CallThrowing(token, at) else Call(token, at);
      ghost var after := Step(cfg, View(), e);
      assert Inv(cfg, after) by { StepKeepsInv(cfg, View(), e); }
      ForgetExpired(at);
      clock := at;
      var recent := Get(remembered, token);
      if recent.Some? && recent.value.expiresAt > at { return Replay(recent.value.value); }
      if token in inFlight { return Wait(inFlight[token]); }
      var run := nextRun;
      nextRun := nextRun + 1;
      if throwing {
        assert inFlight - {token} == inFlight;
        inFlight := inFlight - {token};
      } else {
        running := running[run := token];
      }
      inFlight := inFlight[token := run];
      assert View() == after;
      return Wait(run);
    }

    /** The continuation of `await rotate()`; `token` is the key its call captured. */
    method Complete(token: Token, run: nat, result: Result<V>, at: int)
      requires Inv(cfg, View()) && at >= clock && run in running && running[run] == token
      modifies this
      ensures View() == Step(cfg, old(View()), Settle(run, result, at))
      ensures Inv(cfg, View())
    {
      StepKeepsInv(cfg, View(), Settle(run, result, at));
      clock := at;
      if result.Succeeded? {
        remembered := Put(remembered, Entry(token, result.value, at + cfg.graceMs));
      }
      inFlight := inFlight - {token};
      running := running - {run};
    }
  }
}
