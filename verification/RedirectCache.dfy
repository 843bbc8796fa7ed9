/** The process-wide map of renamed category slugs (`createRedirectCache` in
    frontend/lib/category-redirects.ts).

    An event is one uninterrupted stretch of JavaScript: a `get()`, or one of the
    three continuations chained on `load()`. The `finally` continuation runs in a
    later microtask than the one before it, so a `get()` may fall in between. */
module RedirectCache {
  import opened Options

  datatype Event<M> =
    | Get(at: int)
    | Loaded(load: nat, fetched: M)   // `.then`
    | Failed(load: nat)             // `.catch`
    | Finished(load: nat, at: int)  // `.finally`

  /** Where a started load stands; kept by the surroundings, not by the cache. */
  datatype Task<M> = Loading | Settled(result: M)

  datatype World<M> = World(
    current: M,
    fetchedAt: Option<int>,  // `None` is minus infinity
    inflight: Option<nat>,
    nextLoad: nat,
    tasks: map<nat, Task<M>>)

  datatype Answer<M> = Now(current: M) | Promise(load: nat)

  ghost predicate Enabled<M>(w: World<M>, e: Event<M>) {
    match e
    case Get(_) => true
    case Finished(load, _) => load in w.tasks && w.tasks[load].Settled?
    case _ => e.load in w.tasks && w.tasks[e.load].Loading?
  }

  predicate Fresh<M>(w: World<M>, ttlMs: int, at: int) {
    w.fetchedAt.Some? && at - w.fetchedAt.value < ttlMs
  }

  function AnswerOf<M>(w: World<M>, ttlMs: int, at: int): Answer<M> {
    if Fresh(w, ttlMs, at) then Now(w.current)
    else Promise(if w.inflight.Some? then w.inflight.value else w.nextLoad)
  }

  ghost predicate Starts<M>(w: World<M>, ttlMs: int, e: Event<M>) {
    e.Get? && !Fresh(w, ttlMs, e.at) && w.inflight.None?
  }

  ghost function Step<M>(w: World<M>, ttlMs: int, e: Event<M>): World<M>
    requires Enabled(w, e)
  {
    match e
    case Get(at) =>
      if !Starts(w, ttlMs, e) then w
      else w.(inflight := Some(w.nextLoad), nextLoad := w.nextLoad + 1, tasks := w.tasks[w.nextLoad := Loading])
    case Loaded(load, fetched) => w.(current := fetched, tasks := w.tasks[load := Settled(fetched)])
    case Failed(load) => w.(tasks := w.tasks[load := Settled(w.current)])
    case Finished(load, at) => w.(fetchedAt := Some(at), inflight := None, tasks := w.tasks - {load})
  }

  ghost predicate Initial<M>(w: World<M>, empty: M) {
    w.current == empty && w.fetchedAt.None? && w.inflight.None? && w.tasks == map[]
  }

  ghost predicate Run<M>(empty: M, ttlMs: int, ws: seq<World<M>>, es: seq<Event<M>>) {
    && |ws| == |es| + 1
    && Initial(ws[0], empty)
    && forall i :: 0 <= i < |es| ==> Enabled(ws[i], es[i]) && ws[i + 1] == Step(ws[i], ttlMs, es[i])
  }

  /** The one load in flight is the one `inflight` remembers. */
  ghost predicate Inv<M>(w: World<M>) {
    && w.tasks.Keys == (if w.inflight.Some? then {w.inflight.value} else {})
    && (w.inflight.Some? ==> w.inflight.value < w.nextLoad)
    && (forall l :: l in w.tasks && w.tasks[l].Settled? ==> w.tasks[l].result == w.current)
  }

  lemma {:induction false} StepKeepsInv<M>(w: World<M>, ttlMs: int, e: Event<M>)
    requires Inv(w) && Enabled(w, e)
    ensures Inv(Step(w, ttlMs, e))
  {
  }

  // ------------------------------------------------- what a history determines

  /** The map of the last successful load among the first `n` events. */
  ghost function LastLoaded<M>(empty: M, es: seq<Event<M>>, n: nat): M
    requires n <= |es|
  {
    if n == 0 then empty else if es[n - 1].Loaded? then es[n - 1].fetched else LastLoaded(empty, es, n - 1)
  }

  /** When the last load among the first `n` events finished. */
  ghost function LastFinish<M>(es: seq<Event<M>>, n: nat): Option<int>
    requires n <= |es|
  {
    if n == 0 then None else if es[n - 1].Finished? then Some(es[n - 1].at) else LastFinish(es, n - 1)
  }

  lemma {:induction false} RunInv<M>(empty: M, ttlMs: int, ws: seq<World<M>>, es: seq<Event<M>>, n: nat)
    requires Run(empty, ttlMs, ws, es) && n < |ws|
    ensures Inv(ws[n])
    ensures ws[n].current == LastLoaded(empty, es, n)
    ensures ws[n].fetchedAt == LastFinish(es, n)
  {
    if n > 0 {
      RunInv(empty, ttlMs, ws, es, n - 1);
      StepKeepsInv(ws[n - 1], ttlMs, es[n - 1]);
    }
  }

  // ---------------------------------------------------------------- main results

  /** Never two loads at once, whatever loads fail. */
  lemma {:induction false} OneLoadAtATime<M>(empty: M, ttlMs: int, ws: seq<World<M>>, es: seq<Event<M>>, n: nat)
    requires Run(empty, ttlMs, ws, es) && n < |ws|
    ensures |ws[n].tasks| <= 1
    ensures n < |es| && Starts(ws[n], ttlMs, es[n]) ==> ws[n].tasks == map[]
  {
    RunInv(empty, ttlMs, ws, es, n);
    if ws[n].inflight.Some? { assert |ws[n].tasks.Keys| == 1; }
    if ws[n].inflight.None? { assert ws[n].tasks.Keys == {}; }
  }

  /** Between two loads the earlier one finished, and the later one starts
      `ttlMs` or more after that. */
  lemma {:induction false} LoadsAreSpaced<M>(empty: M, ttlMs: int, ws: seq<World<M>>, es: seq<Event<M>>, i: nat, j: nat)
    returns (f: nat)
    requires Run(empty, ttlMs, ws, es) && i < j < |es|
    requires Starts(ws[i], ttlMs, es[i]) && Starts(ws[j], ttlMs, es[j])
    ensures i < f < j && es[f].Finished? && es[j].at - es[f].at >= ttlMs
    ensures forall m :: f < m < j ==> !es[m].Finished?
  {
    RunInv(empty, ttlMs, ws, es, j);
    f := FinishSince(empty, ttlMs, ws, es, i, j);
    LastFinishIs(es, f, j);
  }

  lemma {:induction false} FinishSince<M>(empty: M, ttlMs: int, ws: seq<World<M>>, es: seq<Event<M>>, i: nat, j: nat)
    returns (f: nat)
    requires Run(empty, ttlMs, ws, es) && i < j < |ws|
    requires Starts(ws[i], ttlMs, es[i]) && ws[j].inflight.None?
    ensures i < f < j && es[f].Finished? && forall m :: f < m < j ==> !es[m].Finished?
  {
    if es[j - 1].Finished? {
      f := j - 1;
    } else {
      f := FinishSince(empty, ttlMs, ws, es, i, j - 1);
    }
  }

  lemma {:induction false} LastFinishIs<M>(es: seq<Event<M>>, f: nat, n: nat)
    requires f < n <= |es| && es[f].Finished? && forall m :: f < m < n ==> !es[m].Finished?
    ensures LastFinish(es, n) == Some(es[f].at)
  {
    if n > f + 1 { LastFinishIs(es, f, n - 1); }
  }

  /** Every `get()` is answered with the map of the last successful load: at once
      when the last load finished less than `ttlMs` ago, and otherwise when the
      load it waits for has settled, as of that moment. */
  lemma {:induction false} AnswersAreLastLoaded<M>(empty: M, ttlMs: int, ws: seq<World<M>>, es: seq<Event<M>>, j: nat)
    requires Run(empty, ttlMs, ws, es) && j < |es|
    ensures es[j].Get? ==>
      match AnswerOf(ws[j], ttlMs, es[j].at)
      case Now(m) => m == LastLoaded(empty, es, j) && LastFinish(es, j).Some? &&
        es[j].at - LastFinish(es, j).value < ttlMs
      case Promise(l) =>
        && (LastFinish(es, j).Some? ==> es[j].at - LastFinish(es, j).value >= ttlMs)
        && ws[j + 1].tasks.Keys == {l}
    ensures es[j].Loaded? || es[j].Failed? ==>
      ws[j + 1].tasks[es[j].load] == Settled(LastLoaded(empty, es, j + 1))
    ensures es[j].Finished? ==> ws[j].tasks[es[j].load] == Settled(LastLoaded(empty, es, j))
  {
    RunInv(empty, ttlMs, ws, es, j);
  }

  // ------------------------------------------------------------------ the object

  class Cache<M> {
    const ttlMs: int
    var current: M
    var fetchedAt: Option<int>
    var inflight: Option<nat>
    var nextLoad: nat
    ghost var tasks: map<nat, Task<M>>

    ghost function View(): World<M>
      reads this
    {
      World(current, fetchedAt, inflight, nextLoad, tasks)
    }

    constructor (empty: M, ttlMs: int)
      ensures Initial(View(), empty) && Inv(View()) && this.ttlMs == ttlMs
    {
      this.ttlMs := ttlMs;
      current, fetchedAt, inflight, nextLoad, tasks := empty, None, None, 0, map[];
    }

    method Get(at: int) returns (answer: Answer<M>)
      requires Inv(View())
      modifies this
      ensures answer == AnswerOf(old(View()), ttlMs, at)
      ensures View() == Step(old(View()), ttlMs, Event.Get(at)) && Inv(View())
    {
      if fetchedAt.Some? && at - fetchedAt.value < ttlMs { return Now(current); }
      if inflight.None? {
        inflight := Some(nextLoad);
        tasks := tasks[nextLoad := Loading];
        nextLoad := nextLoad + 1;
      }
      return Promise(inflight.value);
    }

    method OnLoaded(load: nat, fetched: M) returns (result: M)
      requires Inv(View()) && load in tasks && tasks[load].Loading?
      modifies this
      ensures result == fetched && View() == Step(old(View()), ttlMs, Loaded(load, fetched)) && Inv(View())
    {
      current := fetched;
      tasks := tasks[load := Settled(fetched)];
      return current;
    }

    method OnFailed(load: nat) returns (result: M)
      requires Inv(View()) && load in tasks && tasks[load].Loading?
      modifies this
      ensures result == old(current) && View() == Step(old(View()), ttlMs, Failed(load)) && Inv(View())
    {
      tasks := tasks[load := Settled(current)];
      return current;
    }

    method OnFinished(load: nat, at: int)
      requires Inv(View()) && load in tasks && tasks[load].Settled?
      modifies this
      ensures View() == Step(old(View()), ttlMs, Finished(load, at)) && Inv(View())
    {
      fetchedAt := Some(at);
      inflight := None;
      tasks := tasks - {load};
    }
  }
}
