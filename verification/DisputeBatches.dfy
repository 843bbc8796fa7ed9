/** Cutting a dispute selection into requests (frontend/lib/dispute-batches.ts)
    and sending them (`openDisputeBatched` and
    `sellerResolveDisputeResourcesBatched` in frontend/lib/api.ts). */
module DisputeBatches {
  import opened JsCollections
  import opened Options

  const DISPUTE_RESOURCE_BATCH_SIZE := 2000

  datatype Result<T> = Ok(value: T) | RangeError(message: string)

  datatype PairedBatch = PairedBatch(resourceIds: seq<int>, replacementIds: Option<seq<int>>)

  function Concat<T>(batches: seq<seq<T>>): seq<T> {
    if batches == [] then [] else batches[0] + Concat(batches[1..])
  }

  /** `all` cut every `size` elements. */
  function Chunks<T>(all: seq<T>, size: nat): (r: seq<seq<T>>)
    requires size >= 1
    ensures r == [] <==> all == []
    decreases |all|
  {
    if all == [] then []
    else if |all| <= size then [all]
    else [all[..size]] + Chunks(all[size..], size)
  }

  /** The chunks are the whole, in order; all are full except possibly the last,
      and none is empty. */
  lemma {:induction false} ChunksCut<T>(all: seq<T>, size: nat)
    requires size >= 1
    ensures var r := Chunks(all, size);
      && Concat(r) == all
      && (forall b :: 0 <= b < |r| ==> 0 < |r[b]| <= size)
      && (forall b :: 0 <= b < |r| - 1 ==> |r[b]| == size)
    decreases |all|
  {
    if |all| > size {
      ChunksCut(all[size..], size);
      assert all == all[..size] + all[size..];
    } else if all != [] {
      assert Concat([all]) == all + Concat([all][1..]);
    }
  }

  /** There are as few chunks as there can be. */
  lemma {:induction false} ChunkCount<T>(all: seq<T>, size: nat)
    requires size >= 1
    ensures var n := |Chunks(all, size)|; all != [] ==> (n - 1) * size < |all| <= n * size
    decreases |all|
  {
    if |all| > size {
      ChunkCount(all[size..], size);
      var n := |Chunks(all, size)|;
      assert (n - 1) * size == (n - 2) * size + size && n * size == (n - 1) * size + size;
    }
  }

  /** Element `i` of chunk `b` is element `b * size + i` of the whole. */
  lemma {:induction false} ChunkPosition<T>(all: seq<T>, size: nat, b: nat, i: nat)
    requires size >= 1 && b < |Chunks(all, size)| && i < |Chunks(all, size)[b]|
    ensures 0 <= b * size + i < |all| && Chunks(all, size)[b][i] == all[b * size + i]
    decreases b
  {
    if b > 0 {
      ChunkPosition(all[size..], size, b - 1, i);
      assert (b - 1) * size == b * size - size;
    }
  }

  function Min(a: int, b: int): int { if a <= b then a else b }

  method ChunkDisputeResourceIds(resourceIds: seq<int>, batchSize: int) returns (r: Result<seq<seq<int>>>)
    ensures r.RangeError? <==> batchSize < 1
    ensures r.Ok? ==> r.value == Chunks(Unique(resourceIds), batchSize)
  {
    if batchSize < 1 { return RangeError("batchSize must be a positive integer"); }
    var batches := ChunkLoop(Unique(resourceIds), batchSize);
    return Ok(batches);
  }

  /** The loop over the unique ids. */
  method ChunkLoop(uniqueIds: seq<int>, batchSize: nat) returns (batches: seq<seq<int>>)
    requires batchSize >= 1
    ensures batches == Chunks(uniqueIds, batchSize)
  {
    batches := [];
    var index := 0;
    ghost var rest := Chunks(uniqueIds, batchSize);
    assert uniqueIds[0..] == uniqueIds;
    while index < |uniqueIds|
      invariant 0 <= index
      invariant rest == Chunks(uniqueIds[Min(index, |uniqueIds|)..], batchSize)
      invariant batches + rest == Chunks(uniqueIds, batchSize)
    {
      ChunkStep(uniqueIds, batchSize, index);
      var batch := uniqueIds[index..Min(index + batchSize, |uniqueIds|)];
      assert rest == [batch] + rest[1..];
      batches := batches + [batch];
      rest := rest[1..];
      index := index + batchSize;
    }
  }

  lemma {:induction false} ChunkStep<T>(all: seq<T>, size: nat, at: nat)
    requires size >= 1 && at < |all|
    ensures var cut := Min(at + size, |all|);
      Chunks(all[at..], size) == [all[at..cut]] + Chunks(all[cut..], size)
  {
    var rest := all[at..];
    if |rest| > size {
      assert rest[..size] == all[at..at + size] && rest[size..] == all[at + size..];
    } else {
      assert all[at..|all|] == rest && all[|all|..] == [];
    }
  }

  /** The two cuttings side by side. */
  function Pairs(ids: seq<seq<int>>, replacements: seq<seq<int>>): (r: seq<PairedBatch>)
    requires |ids| == |replacements|
    ensures |r| == |ids|
    ensures forall b :: 0 <= b < |r| ==> r[b] == PairedBatch(ids[b], Some(replacements[b]))
  {
    seq(|ids|, b requires 0 <= b < |ids| => PairedBatch(ids[b], Some(replacements[b])))
  }

  function Unpaired(ids: seq<seq<int>>): (r: seq<PairedBatch>)
    ensures |r| == |ids| && forall b :: 0 <= b < |r| ==> r[b] == PairedBatch(ids[b], None)
  {
    seq(|ids|, b requires 0 <= b < |ids| => PairedBatch(ids[b], None))
  }

  lemma {:induction false} SameCut<S, T>(a: seq<S>, b: seq<T>, size: nat)
    requires size >= 1 && |a| == |b|
    ensures |Chunks(a, size)| == |Chunks(b, size)|
    ensures forall k :: 0 <= k < |Chunks(a, size)| ==> |Chunks(a, size)[k]| == |Chunks(b, size)[k]|
    decreases |a|
  {
    if |a| > size { SameCut(a[size..], b[size..], size); }
  }

  /** What the seller's replacement choice must be to be sent at all. */
  predicate Pairable(resourceIds: seq<int>, replacements: seq<int>) {
    |replacements| == |Unique(resourceIds)| && Unique(replacements) == replacements
  }

  function PairedChunks(resourceIds: seq<int>, replacements: Option<seq<int>>, size: int): seq<PairedBatch>
    requires (size >= 1 || resourceIds == []) && (replacements.Some? ==> Pairable(resourceIds, replacements.value))
  {
    var ids := if resourceIds == [] then [] else Chunks(Unique(resourceIds), size);
    if replacements.None? then Unpaired(ids)
    else if resourceIds == [] then []
    else
      SameCut(Unique(resourceIds), replacements.value, size);
      Pairs(ids, Chunks(replacements.value, size))
  }

  /** The size is only checked on the path without replacements. With a choice
      that pairs up and ids to send, a size below one would loop for ever. */
  method ChunkPairedDisputeResources(resourceIds: seq<int>, replacements: Option<seq<int>>, batchSize: int)
      returns (r: Result<seq<PairedBatch>>)
    requires replacements.Some? && Pairable(resourceIds, replacements.value) && resourceIds != [] ==> batchSize >= 1
    ensures r.RangeError? <==>
      if replacements.None? then batchSize < 1 else !Pairable(resourceIds, replacements.value)
    ensures r.Ok? ==> r.value == PairedChunks(resourceIds, replacements, batchSize)
  {
    var claimed := Unique(resourceIds);
    if replacements.None? {
      UniqueOfDistinct(claimed);
      var plain := ChunkDisputeResourceIds(claimed, batchSize);
      if plain.RangeError? { return RangeError(plain.message); }
      return Ok(Unpaired(plain.value));
    }
    var chosen := replacements.value;
    UniqueNoLonger(chosen);
    if |chosen| != |claimed| { return RangeError("replacementResourceIds length must match unique resourceIds"); }
    if |Unique(chosen)| != |chosen| { return RangeError("replacement resource IDs must be unique"); }
    if resourceIds != [] {
      assert resourceIds[0] in claimed;
      PairsFromStart(claimed, chosen, batchSize);
    }
    var batches := PairLoop(claimed, chosen, batchSize);
    return Ok(batches);
  }

  /** The pairs still to be cut at `index`. */
  ghost function PairsFrom(claimed: seq<int>, chosen: seq<int>, size: nat, index: nat): seq<PairedBatch>
    requires size >= 1 && |claimed| == |chosen|
    decreases |claimed| - index
  {
    if index >= |claimed| then []
    else
      var cut := Min(index + size, |claimed|);
      [PairedBatch(claimed[index..cut], Some(chosen[index..cut]))] + PairsFrom(claimed, chosen, size, index + size)
  }

  lemma {:induction false} PairsFromIsPairs(claimed: seq<int>, chosen: seq<int>, size: nat, index: nat)
    requires size >= 1 && |claimed| == |chosen| && index <= |claimed|
    ensures |Chunks(claimed[index..], size)| == |Chunks(chosen[index..], size)|
    ensures PairsFrom(claimed, chosen, size, index) ==
      Pairs(Chunks(claimed[index..], size), Chunks(chosen[index..], size))
    decreases |claimed| - index
  {
    if index < |claimed| {
      var cut := Min(index + size, |claimed|);
      PairsFromIsPairs(claimed, chosen, size, cut);
      assert PairsFrom(claimed, chosen, size, cut) == PairsFrom(claimed, chosen, size, index + size);
      ChunkStep(claimed, size, index);
      ChunkStep(chosen, size, index);
    }
  }

  /** The loop's cutting is the pairing of the two cuttings. */
  lemma {:induction false} PairsFromStart(claimed: seq<int>, chosen: seq<int>, size: nat)
    requires size >= 1 && |claimed| == |chosen|
    ensures |Chunks(claimed, size)| == |Chunks(chosen, size)|
    ensures PairsFrom(claimed, chosen, size, 0) == Pairs(Chunks(claimed, size), Chunks(chosen, size))
  {
    assert claimed[0..] == claimed && chosen[0..] == chosen;
    PairsFromIsPairs(claimed, chosen, size, 0);
  }

  /** The loop over `claimed` that cuts both lists. */
  method PairLoop(claimed: seq<int>, chosen: seq<int>, batchSize: int) returns (batches: seq<PairedBatch>)
    requires |claimed| == |chosen| && (claimed != [] ==> batchSize >= 1)
    ensures if claimed == [] then batches == [] else batches == PairsFrom(claimed, chosen, batchSize, 0)
  {
    batches := [];
    var index := 0;
    while index < |claimed|
      invariant 0 <= index
      invariant if claimed == [] then batches == []
        else batches + PairsFrom(claimed, chosen, batchSize, index) == PairsFrom(claimed, chosen, batchSize, 0)
    {
      var cut := Min(index + batchSize, |claimed|);
      batches := batches + [PairedBatch(claimed[index..cut], Some(chosen[index..cut]))];
      index := index + batchSize;
    }
  }

  lemma {:induction false} UniqueNoLonger(s: seq<int>)
    ensures |Unique(s)| <= |s| && (|Unique(s)| == |s| ==> Unique(s) == s)
  {
    if s != [] {
      var t := s[..|s| - 1];
      UniqueNoLonger(t);
      assert s == t + [s[|s| - 1]];
    }
  }

  /** Every claimed id is sent with the replacement chosen at its own position,
      in whichever batch it ends up. */
  lemma {:induction false} PairsStayTogether(ids: seq<int>, replacements: seq<int>, size: nat, b: nat, i: nat)
    requires size >= 1 && Pairable(ids, replacements)
    requires var r := PairedChunks(ids, Some(replacements), size); b < |r| && i < |r[b].resourceIds|
    ensures var batch := PairedChunks(ids, Some(replacements), size)[b];
      && 0 <= b * size + i < |replacements|
      && batch.resourceIds[i] == Unique(ids)[b * size + i]
      && |batch.replacementIds.value| == |batch.resourceIds|
      && batch.replacementIds.value[i] == replacements[b * size + i]
  {
    SameCut(Unique(ids), replacements, size);
    ChunkPosition(Unique(ids), size, b, i);
    ChunkPosition(replacements, size, b, i);
  }

  // ------------------------------------------------------------------ the callers

  datatype Request =
    | Open(ids: Option<seq<int>>, lines: seq<int>)
    | Append(batch: seq<int>)
    | Resolve(batch: seq<int>, note: Option<string>, replacements: Option<seq<int>>)

  function RequestIds(q: Request): seq<int> {
    match q
    case Open(ids, _) => if ids.Some? then ids.value else []
    case _ => q.batch
  }

  function SentIds(log: seq<Request>): seq<int> {
    if log == [] then [] else RequestIds(log[0]) + SentIds(log[1..])
  }

  function Appends(batches: seq<seq<int>>): (r: seq<Request>)
    ensures |r| == |batches| && forall k :: 0 <= k < |r| ==> r[k] == Append(batches[k])
  {
    seq(|batches|, k requires 0 <= k < |batches| => Append(batches[k]))
  }

  /** All requests of `openDisputeBatched`, when none fails. */
  function OpenPlan(resourceIds: seq<int>, lines: seq<int>): seq<Request> {
    var batches := Chunks(Unique(resourceIds), DISPUTE_RESOURCE_BATCH_SIZE);
    if batches == [] then [Open(None, lines)] else [Open(Some(batches[0]), lines)] + Appends(batches[1..])
  }

  /** All requests of `sellerResolveDisputeResourcesBatched`. */
  function ResolvePlan(batches: seq<PairedBatch>, note: Option<string>): (r: seq<Request>)
    ensures |r| == |batches|
    ensures forall k :: 0 <= k < |r| ==>
      r[k] == Resolve(batches[k].resourceIds, if k == |r| - 1 then note else None, batches[k].replacementIds)
  {
    seq(|batches|, k requires 0 <= k < |batches| =>
      Resolve(batches[k].resourceIds, if k == |batches| - 1 then note else None, batches[k].replacementIds))
  }

  /** All requests of `sellerResolveDisputeResourcesBatched`, when none fails. */
  function PairedPlan(resourceIds: seq<int>, note: Option<string>, replacements: Option<seq<int>>): seq<Request>
    requires replacements.Some? ==> Pairable(resourceIds, replacements.value)
  {
    ResolvePlan(PairedChunks(resourceIds, replacements, DISPUTE_RESOURCE_BATCH_SIZE), note)
  }

  /** `log` is the plan up to and including the first request that fails. */
  ghost predicate Executes(plan: seq<Request>, fails: nat -> bool, log: seq<Request>, ok: bool) {
    && log <= plan
    && (forall k: nat :: k < |log| - 1 ==> !fails(k))
    && (ok ==> log == plan && forall k: nat :: k < |log| ==> !fails(k))
    && (!ok ==> log != [] && fails(|log| - 1))
  }

  method OpenDisputeBatched(resourceIds: seq<int>, lines: seq<int>, fails: nat -> bool)
      returns (log: seq<Request>, ok: bool)
    ensures Executes(OpenPlan(resourceIds, lines), fails, log, ok)
  {
    var chunks := ChunkDisputeResourceIds(resourceIds, DISPUTE_RESOURCE_BATCH_SIZE);
    var batches := chunks.value;
    if batches == [] {
      log, ok := OpenThenAppend(Open(None, lines), [], fails);
    } else {
      log, ok := OpenThenAppend(Open(Some(batches[0]), lines), batches[1..], fails);
    }
  }

  method OpenThenAppend(first: Request, rest: seq<seq<int>>, fails: nat -> bool) returns (log: seq<Request>, ok: bool)
    ensures Executes([first] + Appends(rest), fails, log, ok)
  {
    ghost var plan := [first] + Appends(rest);
    log := [first];
    if fails(0) { return log, false; }
    for k := 0 to |rest|
      invariant log == plan[..k + 1]
      invariant forall j: nat :: j < k + 1 ==> !fails(j)
    {
      assert plan[k + 1] == Append(rest[k]);
      log := log + [Append(rest[k])];
      if fails(k + 1) { return log, false; }
    }
    ok := true;
  }

  /** A choice of replacements that does not pair up is refused before anything
      is sent. */
  method SellerResolveBatched(
      resourceIds: seq<int>, note: Option<string>, replacements: Option<seq<int>>, fails: nat -> bool)
      returns (log: seq<Request>, ok: bool)
    ensures if replacements.Some? && !Pairable(resourceIds, replacements.value) then !ok && log == []
      else Executes(PairedPlan(resourceIds, note, replacements), fails, log, ok)
  {
    var chunks := ChunkPairedDisputeResources(resourceIds, replacements, DISPUTE_RESOURCE_BATCH_SIZE);
    if chunks.RangeError? { return [], false; }
    log, ok := ResolveEach(chunks.value, note, fails);
  }

  method ResolveEach(batches: seq<PairedBatch>, note: Option<string>, fails: nat -> bool)
      returns (log: seq<Request>, ok: bool)
    ensures Executes(ResolvePlan(batches, note), fails, log, ok)
  {
    ghost var plan := ResolvePlan(batches, note);
    log := [];
    for k := 0 to |batches|
      invariant log == plan[..k]
      invariant forall j: nat :: j < k ==> !fails(j)
    {
      var q := Resolve(batches[k].resourceIds, if k == |batches| - 1 then note else None, batches[k].replacementIds);
      assert plan[k] == q;
      log := log + [q];
      if fails(k) { return log, false; }
    }
    ok := true;
  }

  lemma {:induction false} SentPrefix(log: seq<Request>, plan: seq<Request>)
    requires log <= plan
    ensures SentIds(log) <= SentIds(plan)
  {
    if log != [] {
      SentPrefix(log[1..], plan[1..]);
    }
  }

  lemma {:induction false} SentByAppends(batches: seq<seq<int>>)
    ensures SentIds(Appends(batches)) == Concat(batches)
  {
    if batches != [] {
      SentByAppends(batches[1..]);
      assert Appends(batches)[1..] == Appends(batches[1..]);
    }
  }

  lemma {:induction false} SentByResolves(batches: seq<PairedBatch>, ids: seq<seq<int>>, note: Option<string>)
    requires |ids| == |batches| && forall b :: 0 <= b < |ids| ==> batches[b].resourceIds == ids[b]
    ensures SentIds(ResolvePlan(batches, note)) == Concat(ids)
  {
    if batches != [] {
      SentByResolves(batches[1..], ids[1..], note);
      assert ResolvePlan(batches, note)[1..] == ResolvePlan(batches[1..], note);
    }
  }

  /** No id is sent twice, and each before those selected after it. */
  ghost predicate InFirstSeenOrder(selected: seq<int>, sent: seq<int>) {
    forall i, j :: 0 <= i < j < |sent| ==> sent[i] != sent[j] && SeenBefore(selected, sent[i], sent[j])
  }

  lemma {:induction false} PrefixInOrder(selected: seq<int>, sent: seq<int>)
    requires sent <= Unique(selected)
    ensures InFirstSeenOrder(selected, sent)
  {
    forall i, j | 0 <= i < j < |sent| ensures SeenBefore(selected, sent[i], sent[j]) {
      UniqueKeepsOrder(selected, i, j);
    }
  }

  /** Opening sends every selected id exactly once, in first-seen order, and the
      proxy lines only with the request that opens the case; a failure leaves a
      prefix sent. */
  lemma {:induction false} OpenSendsEachIdOnce(
      resourceIds: seq<int>, lines: seq<int>, fails: nat -> bool, log: seq<Request>, ok: bool)
    requires Executes(OpenPlan(resourceIds, lines), fails, log, ok)
    ensures SentIds(log) <= Unique(resourceIds) && InFirstSeenOrder(resourceIds, SentIds(log))
    ensures ok ==> SentIds(log) == Unique(resourceIds)
    ensures log[0].Open? && log[0].lines == lines && (log[0].ids.None? <==> resourceIds == [])
    ensures forall k :: 1 <= k < |log| ==> log[k].Append? && 0 < |log[k].batch| <= DISPUTE_RESOURCE_BATCH_SIZE
  {
    var plan := OpenPlan(resourceIds, lines);
    SentPrefix(log, plan);
    OpenPlanSendsAll(resourceIds, lines);
    PrefixInOrder(resourceIds, SentIds(log));
    assert forall k :: 0 <= k < |log| ==> log[k] == plan[k];
  }

  lemma {:induction false} OpenPlanSendsAll(resourceIds: seq<int>, lines: seq<int>)
    ensures var plan := OpenPlan(resourceIds, lines);
      && SentIds(plan) == Unique(resourceIds)
      && plan != [] && plan[0].Open? && plan[0].lines == lines && (plan[0].ids.None? <==> resourceIds == [])
      && forall k :: 1 <= k < |plan| ==> plan[k].Append? && 0 < |plan[k].batch| <= DISPUTE_RESOURCE_BATCH_SIZE
  {
    var plan := OpenPlan(resourceIds, lines);
    var all := Unique(resourceIds);
    var batches := Chunks(all, DISPUTE_RESOURCE_BATCH_SIZE);
    ChunksCut(all, DISPUTE_RESOURCE_BATCH_SIZE);
    if resourceIds != [] {
      assert resourceIds[0] in all;
      SentByAppends(batches[1..]);
      assert plan[1..] == Appends(batches[1..]);
      assert forall k :: 1 <= k < |plan| ==> plan[k] == Append(batches[k]);
    } else {
      assert plan[1..] == [];
    }
  }

  /** Resolving sends every id exactly once, in order, and the note with the last
      request of the plan and no other: it reaches the case exactly when there is
      an id to resolve and every request before the last one succeeded. */
  lemma {:induction false} NoteGoesWithTheLastRequest(
      resourceIds: seq<int>, note: Option<string>, replacements: Option<seq<int>>, fails: nat -> bool,
      log: seq<Request>, ok: bool)
    requires replacements.Some? ==> Pairable(resourceIds, replacements.value)
    requires Executes(PairedPlan(resourceIds, note, replacements), fails, log, ok)
    requires note.Some?
    ensures SentIds(log) <= Unique(resourceIds) && InFirstSeenOrder(resourceIds, SentIds(log))
    ensures ok ==> SentIds(log) == Unique(resourceIds)
    ensures forall k :: 0 <= k < |log| ==> log[k].Resolve?
    ensures forall k :: 0 <= k < |log| - 1 ==> log[k].note.None?
    ensures (exists k :: 0 <= k < |log| && log[k].note == note) <==>
      resourceIds != [] && SentIds(log) == Unique(resourceIds)
  {
    var batches := PairedChunks(resourceIds, replacements, DISPUTE_RESOURCE_BATCH_SIZE);
    var plan := ResolvePlan(batches, note);
    PlanSendsAll(resourceIds, note, replacements);
    SentPrefix(log, plan);
    PrefixInOrder(resourceIds, SentIds(log));
    if |log| < |plan| {
      ShorterSendsLess(log, plan);
    } else if log != [] {
      assert log == plan;
      assert log[|log| - 1].note == note;
    }
  }

  lemma {:induction false} PlanSendsAll(resourceIds: seq<int>, note: Option<string>, replacements: Option<seq<int>>)
    requires replacements.Some? ==> Pairable(resourceIds, replacements.value)
    ensures var plan := PairedPlan(resourceIds, note, replacements);
      && SentIds(plan) == Unique(resourceIds)
      && (plan == [] <==> resourceIds == [])
      && forall k :: 0 <= k < |plan| ==> RequestIds(plan[k]) != []
  {
    var all := Unique(resourceIds);
    ChunksCut(all, DISPUTE_RESOURCE_BATCH_SIZE);
    if replacements.Some? { SameCut(all, replacements.value, DISPUTE_RESOURCE_BATCH_SIZE); }
    SentByResolves(PairedChunks(resourceIds, replacements, DISPUTE_RESOURCE_BATCH_SIZE),
                   Chunks(all, DISPUTE_RESOURCE_BATCH_SIZE), note);
    assert resourceIds != [] ==> resourceIds[0] in all;
  }

  lemma {:induction false} ShorterSendsLess(log: seq<Request>, plan: seq<Request>)
    requires log <= plan && |log| < |plan| && forall k :: 0 <= k < |plan| ==> RequestIds(plan[k]) != []
    ensures |SentIds(log)| < |SentIds(plan)|
  {
    if log != [] { ShorterSendsLess(log[1..], plan[1..]); }
  }
}
