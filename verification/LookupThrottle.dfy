/** The fixed-window limiter of the public lookup tools
    (`createLookupThrottle` in frontend/lib/lookup-guard.ts). */
module LookupThrottle {

  datatype Config = Config(perClientLimit: int, globalLimit: int, windowMs: int)

  /** `Opened` carries the time the current window began; before the first call
      the window start is minus infinity. */
  datatype WindowStart = Never | Opened(at: int)

  datatype State = State(windowStart: WindowStart, started: int, perClient: map<string, int>)

  /** One lookup; an empty or missing `client` is an unknown visitor. */
  datatype Call = Call(client: string, at: int)

  const FRESH := State(Never, 0, map[])

  predicate Resets(cfg: Config, s: State, at: int) {
    s.windowStart.Never? || at - s.windowStart.at >= cfg.windowMs
  }

  function Refreshed(cfg: Config, s: State, at: int): State {
    if Resets(cfg, s, at) then State(Opened(at), 0, map[]) else s
  }

  function CountOf(m: map<string, int>, client: string): int {
    if client in m then m[client] else 0
  }

  predicate Allows(cfg: Config, s: State, c: Call) {
    var w := Refreshed(cfg, s, c.at);
    w.started < cfg.globalLimit && (c.client != "" ==> CountOf(w.perClient, c.client) < cfg.perClientLimit)
  }

  function Step(cfg: Config, s: State, c: Call): State {
    var w := Refreshed(cfg, s, c.at);
    if !Allows(cfg, s, c) then w
    else if c.client == "" then w.(started := w.started + 1)
    else w.(started := w.started + 1, perClient := w.perClient[c.client := CountOf(w.perClient, c.client) + 1])
  }

  function Final(cfg: Config, s: State, calls: seq<Call>): State
    decreases |calls|
  {
    if calls == [] then s else Final(cfg, Step(cfg, s, calls[0]), calls[1..])
  }

  predicate NonDecreasing(calls: seq<Call>) {
    forall i, j :: 0 <= i < j < |calls| ==> calls[i].at <= calls[j].at
  }

  /** Whose lookups are counted: everybody's, or one client's. */
  datatype Scope = Everyone | Only(client: string)

  predicate InScope(scope: Scope, c: Call) { scope.Everyone? || c.client == scope.client }

  function LimitOf(cfg: Config, scope: Scope): int {
    if scope.Everyone? then cfg.globalLimit else cfg.perClientLimit
  }

  /** Lookups of the scope admitted with a time in [lo, hi). */
  function AdmittedIn(cfg: Config, s: State, calls: seq<Call>, lo: int, hi: int, scope: Scope): nat
    decreases |calls|
  {
    if calls == [] then 0
    else
      var c := calls[0];
      (if Allows(cfg, s, c) && lo <= c.at < hi && InScope(scope, c) then 1 else 0)
      + AdmittedIn(cfg, Step(cfg, s, c), calls[1..], lo, hi, scope)
  }

  /** How much of the scope's allowance the current window has used. */
  function Used(s: State, scope: Scope): int {
    if scope.Everyone? then s.started else CountOf(s.perClient, scope.client)
  }

  function Cap(n: int): nat { if n > 0 then n else 0 }

  // ------------------------------------------------------ per-window counters

  /** Sum of the counters of a set of clients. */
  ghost function Sum(m: map<string, int>): int {
    if m == map[] then 0
    else
      var k :| k in m;
      m[k] + Sum(m - {k})
  }

  lemma {:induction false} SumSplit(m: map<string, int>, k: string)
    requires k in m
    ensures Sum(m) == m[k] + Sum(m - {k})
    decreases |m|
  {
    var p :| p in m && Sum(m) == m[p] + Sum(m - {p});
    if p != k {
      SumSplit(m - {p}, k);
      SumSplit(m - {k}, p);
      assert m - {p} - {k} == m - {k} - {p};
    }
  }

  lemma {:induction false} SumUpdate(m: map<string, int>, k: string, v: int)
    ensures Sum(m[k := v]) == Sum(m) - CountOf(m, k) + v
  {
    SumSplit(m[k := v], k);
    if k in m {
      SumSplit(m, k);
      assert m[k := v] - {k} == m - {k};
    } else {
      assert m[k := v] - {k} == m;
    }
  }

  lemma {:induction false} SumBoundsSize(m: map<string, int>)
    requires forall k :: k in m ==> m[k] >= 1
    ensures |m| <= Sum(m)
    decreases |m|
  {
    if m != map[] {
      var k :| k in m && Sum(m) == m[k] + Sum(m - {k});
      assert |m - {k}| == |m| - 1 by { assert (m - {k}).Keys == m.Keys - {k}; }
      SumBoundsSize(m - {k});
    }
  }

  ghost predicate Inv(cfg: Config, s: State) {
    && 0 <= s.started <= Cap(cfg.globalLimit)
    && Sum(s.perClient) <= s.started
    && (forall k :: k in s.perClient ==> k != "" && 1 <= s.perClient[k] <= cfg.perClientLimit)
  }

  lemma {:induction false} StepKeepsInv(cfg: Config, s: State, c: Call)
    requires Inv(cfg, s)
    ensures Inv(cfg, Step(cfg, s, c))
  {
    var w := Refreshed(cfg, s, c.at);
    if Allows(cfg, s, c) && c.client != "" {
      SumUpdate(w.perClient, c.client, CountOf(w.perClient, c.client) + 1);
    }
  }

  /** After any run the per-client counters add up to at most the lookups of the
      window, and the map holds at most `globalLimit` clients. */
  lemma {:induction false} CountersBounded(cfg: Config, s: State, calls: seq<Call>)
    requires Inv(cfg, s)
    ensures var f := Final(cfg, s, calls);
      Inv(cfg, f) && |f.perClient| <= Sum(f.perClient) <= f.started <= Cap(cfg.globalLimit)
    decreases |calls|
  {
    if calls == [] {
      SumBoundsSize(s.perClient);
    } else {
      StepKeepsInv(cfg, s, calls[0]);
      CountersBounded(cfg, Step(cfg, s, calls[0]), calls[1..]);
    }
  }

  // ------------------------------------------------------- the 2 x limit bound

  /** While no window can begin before `hi`, at most the unused allowance of the
      current window is admitted. */
  lemma {:induction false} OneWindow(cfg: Config, s: State, calls: seq<Call>, lo: int, hi: int, scope: Scope)
    requires Inv(cfg, s) && NonDecreasing(calls) && scope != Only("")
    requires s.windowStart.Opened? && hi <= s.windowStart.at + cfg.windowMs
    ensures AdmittedIn(cfg, s, calls, lo, hi, scope) <= Cap(LimitOf(cfg, scope)) - Used(s, scope)
    decreases |calls|
  {
    if calls != [] {
      var c := calls[0];
      if c.at >= hi {
        NothingAfter(cfg, s, calls, lo, hi, scope);
      } else {
        StepKeepsInv(cfg, s, c);
        OneWindow(cfg, Step(cfg, s, c), calls[1..], lo, hi, scope);
      }
    }
  }

  lemma {:induction false} NothingAfter(cfg: Config, s: State, calls: seq<Call>, lo: int, hi: int, scope: Scope)
    requires NonDecreasing(calls) && (calls != [] ==> calls[0].at >= hi)
    ensures AdmittedIn(cfg, s, calls, lo, hi, scope) == 0
    decreases |calls|
  {
    if calls != [] {
      assert forall i :: 0 <= i < |calls| - 1 ==> calls[1..][i].at >= hi;
      NothingAfter(cfg, Step(cfg, s, calls[0]), calls[1..], lo, hi, scope);
    }
  }

  /** From `lo` on: the rest of the current window, then at most one more. */
  lemma {:induction false} SinceLo(cfg: Config, s: State, calls: seq<Call>, lo: int, scope: Scope)
    requires Inv(cfg, s) && NonDecreasing(calls) && scope != Only("")
    requires forall i :: 0 <= i < |calls| ==> calls[i].at >= lo
    ensures AdmittedIn(cfg, s, calls, lo, lo + cfg.windowMs, scope) <=
      if calls != [] && Resets(cfg, s, calls[0].at) then Cap(LimitOf(cfg, scope))
      else 2 * Cap(LimitOf(cfg, scope)) - Used(s, scope)
    decreases |calls|
  {
    if calls != [] {
      var c := calls[0];
      var next := Step(cfg, s, c);
      StepKeepsInv(cfg, s, c);
      if Resets(cfg, s, c.at) {
        OneWindow(cfg, next, calls[1..], lo, lo + cfg.windowMs, scope);
      } else {
        SinceLo(cfg, next, calls[1..], lo, scope);
      }
    }
  }

  /** Any stretch of `windowMs` milliseconds of any run admits at most twice the
      limit, of all lookups and of each client's: it overlaps at most two
      windows. When both limits are positive the call that opens a window is
      itself admitted, and then all lookups together stay below twice the limit. */
  lemma {:induction false} TwiceTheLimit(cfg: Config, s: State, calls: seq<Call>, lo: int, scope: Scope)
    requires Inv(cfg, s) && NonDecreasing(calls) && scope != Only("")
    ensures AdmittedIn(cfg, s, calls, lo, lo + cfg.windowMs, scope) <= 2 * Cap(LimitOf(cfg, scope))
    ensures cfg.globalLimit > 0 && cfg.perClientLimit > 0 && (s.windowStart.Opened? ==> s.started > 0) ==>
      AdmittedIn(cfg, s, calls, lo, lo + cfg.windowMs, Everyone) < 2 * cfg.globalLimit
    decreases |calls|
  {
    if calls != [] && calls[0].at < lo {
      StepKeepsInv(cfg, s, calls[0]);
      TwiceTheLimit(cfg, Step(cfg, s, calls[0]), calls[1..], lo, scope);
    } else {
      SinceLo(cfg, s, calls, lo, scope);
      SinceLo(cfg, s, calls, lo, Everyone);
    }
  }

  /** Both bounds are reached, so neither can be lowered. */
  lemma {:induction false} BoundsAreReached()
    ensures var calls := [Call("o", 0), Call("x", 9), Call("x", 10), Call("y", 10)];
      AdmittedIn(Config(5, 2, 10), FRESH, calls, 1, 11, Everyone) == 3
    ensures AdmittedIn(Config(1, 5, 10), FRESH, [Call("o", 0), Call("x", 9), Call("x", 10)], 1, 11, Only("x")) == 2
  {
    var c, a, x, y, z := Config(5, 2, 10), Call("o", 0), Call("x", 9), Call("x", 10), Call("y", 10);
    var s1 := Step(c, FRESH, a);
    var s2 := Step(c, s1, x);
    var s3 := Step(c, s2, y);
    assert AdmittedIn(c, s3, [z], 1, 11, Everyone) == 1;
    assert [y, z][1..] == [z] && [x, y, z][1..] == [y, z] && [a, x, y, z][1..] == [x, y, z];
    assert AdmittedIn(c, s2, [y, z], 1, 11, Everyone) == 2;
    assert AdmittedIn(c, s1, [x, y, z], 1, 11, Everyone) == 3;
    var d := Config(1, 5, 10);
    var t1 := Step(d, FRESH, a);
    var t2 := Step(d, t1, x);
    assert AdmittedIn(d, t2, [y], 1, 11, Only("x")) == 1;
    assert [x, y][1..] == [y] && [a, x, y][1..] == [x, y];
    assert AdmittedIn(d, t1, [x, y], 1, 11, Only("x")) == 2;
  }

  // --------------------------------------------------- refused only when used up

  /** The counters are the lookups admitted since the current window began. */
  lemma {:induction false} UsedIsAdmitted(cfg: Config, s: State, calls: seq<Call>, hi: int, scope: Scope)
    requires cfg.windowMs > 0 && s.windowStart.Opened? && NonDecreasing(calls) && scope != Only("")
    requires calls != [] ==> s.windowStart.at <= calls[0].at && calls[|calls| - 1].at < hi
    ensures var f := Final(cfg, s, calls);
      && f.windowStart.Opened?
      && (calls != [] ==> f.windowStart.at <= calls[|calls| - 1].at)
      && (calls != [] ==> calls[|calls| - 1].at < f.windowStart.at + cfg.windowMs)
      && (f.windowStart != s.windowStart ==> f.windowStart.at >= s.windowStart.at + cfg.windowMs)
      && Used(f, scope) == AdmittedIn(cfg, s, calls, f.windowStart.at, hi, scope)
                           + (if f.windowStart == s.windowStart then Used(s, scope) else 0)
    decreases |calls|
  {
    if calls != [] {
      var c := calls[0];
      var next := Step(cfg, s, c);
      assert c.at <= calls[|calls| - 1].at;
      if |calls| > 1 { assert calls[1..][0].at >= c.at && calls[1..][|calls| - 2] == calls[|calls| - 1]; }
      UsedIsAdmitted(cfg, next, calls[1..], hi, scope);
    }
  }

  /** A lookup is admitted if and only if the window it falls in, which began
      less than `windowMs` before it, has admitted fewer than `globalLimit`
      lookups so far, and fewer than `perClientLimit` of its client if known. */
  lemma {:induction false} RefusedOnlyWhenUsedUp(cfg: Config, calls: seq<Call>, c: Call)
    requires cfg.windowMs > 0 && NonDecreasing(calls + [c])
    ensures var s := Final(cfg, FRESH, calls);
      var w := Refreshed(cfg, s, c.at).windowStart;
      && w.Opened? && w.at <= c.at < w.at + cfg.windowMs
      && (Allows(cfg, s, c) <==>
            && AdmittedIn(cfg, FRESH, calls, w.at, c.at + 1, Everyone) < cfg.globalLimit
            && (c.client != "" ==> AdmittedIn(cfg, FRESH, calls, w.at, c.at + 1, Only(c.client)) < cfg.perClientLimit))
  {
    var s := Final(cfg, FRESH, calls);
    var w := Refreshed(cfg, s, c.at);
    if calls != [] { assert (calls + [c])[|calls| - 1].at <= (calls + [c])[|calls|].at; }
    forall i, j | 0 <= i < j < |calls| ensures calls[i].at <= calls[j].at {
      assert (calls + [c])[i].at <= (calls + [c])[j].at;
    }
    UsedNow(cfg, calls, c, Everyone);
    if c.client != "" { UsedNow(cfg, calls, c, Only(c.client)); }
  }

  lemma {:induction false} UsedNow(cfg: Config, calls: seq<Call>, c: Call, scope: Scope)
    requires cfg.windowMs > 0 && NonDecreasing(calls) && scope != Only("")
    requires calls != [] ==> calls[|calls| - 1].at <= c.at
    ensures var w := Refreshed(cfg, Final(cfg, FRESH, calls), c.at);
      && w.windowStart.Opened? && w.windowStart.at <= c.at < w.windowStart.at + cfg.windowMs
      && Used(w, scope) == AdmittedIn(cfg, FRESH, calls, w.windowStart.at, c.at + 1, scope)
  {
    if calls != [] {
      var first, s := Step(cfg, FRESH, calls[0]), Final(cfg, FRESH, calls);
      var rest := calls[1..];
      assert calls[0].at <= calls[|calls| - 1].at;
      if rest != [] { assert rest[0].at >= calls[0].at && rest[|rest| - 1] == calls[|calls| - 1]; }
      UsedIsAdmitted(cfg, first, rest, c.at + 1, scope);
      if Resets(cfg, s, c.at) { NothingBefore(cfg, FRESH, calls, c.at, c.at + 1, scope); }
    }
  }

  lemma {:induction false} NothingBefore(cfg: Config, s: State, calls: seq<Call>, lo: int, hi: int, scope: Scope)
    requires NonDecreasing(calls) && (calls != [] ==> calls[|calls| - 1].at < lo)
    ensures AdmittedIn(cfg, s, calls, lo, hi, scope) == 0
    decreases |calls|
  {
    if calls != [] {
      assert calls[0].at <= calls[|calls| - 1].at;
      NothingBefore(cfg, Step(cfg, s, calls[0]), calls[1..], lo, hi, scope);
    }
  }

  // -------------------------------------------------------------- the object

  class Throttle {
    const cfg: Config
    var windowStart: WindowStart
    var started: int
    var perClient: map<string, int>

    function View(): State
      reads this
    {
      State(windowStart, started, perClient)
    }

    constructor (cfg: Config)
      ensures View() == FRESH && this.cfg == cfg && Inv(cfg, View())
    {
      this.cfg := cfg;
      windowStart, started, perClient := Never, 0, map[];
    }

    method Allow(client: string, at: int) returns (ok: bool)
      requires Inv(cfg, View())
      modifies this
      ensures ok == Allows(cfg, old(View()), Call(client, at))
      ensures View() == Step(cfg, old(View()), Call(client, at)) && Inv(cfg, View())
    {
      StepKeepsInv(cfg, View(), Call(client, at));
      if windowStart.Never? || at - windowStart.at >= cfg.windowMs {
        windowStart := Opened(at);
        started := 0;
        perClient := map[];
      }
      if started >= cfg.globalLimit { return false; }
      if client != "" {
        var count := if client in perClient then perClient[client] else 0;
        if count >= cfg.perClientLimit { return false; }
        perClient := perClient[client := count + 1];
      }
      started := started + 1;
      return true;
    }
  }
}
