/** The state of a dispute as read off its log of claims and actions
    (frontend/lib/dispute-case.ts and frontend/lib/dispute-form.ts). */
module DisputeCase {
  import opened JsCollections
  import opened Options

  datatype Kind = Replace | Refund

  /** One remedy of a stock line. */
  datatype Action = Action(original: int, replacement: Option<int>, kind: Kind, amount: int)

  datatype ProxyAction = ProxyAction(line: int, amount: int)

  /** `if (action.replacement_resource_id)`: null and 0 count as absent. */
  predicate HasReplacement(a: Action) { a.replacement.Some? && a.replacement.value != 0 }

  // ------------------------------------------------------------ warranty chains

  function Parents(actions: seq<Action>): map<int, int> {
    if actions == [] then map[]
    else
      var m, a := Parents(actions[..|actions| - 1]), actions[|actions| - 1];
      if HasReplacement(a) then m[a.replacement.value := a.original] else m
  }

  /** Steps from `current` upwards until it has no parent or was visited. */
  function Walk(parent: map<int, int>, current: int, seen: set<int>): nat
    decreases parent.Keys - seen
  {
    if current in parent && current !in seen then 1 + Walk(parent, parent[current], seen + {current}) else 0
  }

  function Generation(actions: seq<Action>, id: int): nat { Walk(Parents(actions), id, {}) }

  method ResourceWarrantyGeneration(resourceId: int, actions: seq<Action>) returns (generation: nat)
    ensures generation == Generation(actions, resourceId)
  {
    var parent: map<int, int> := map[];
    for i := 0 to |actions|
      invariant parent == Parents(actions[..i])
    {
      assert actions[..i + 1][..i] == actions[..i];
      var a := actions[i];
      if a.replacement.Some? && a.replacement.value != 0 { parent := parent[a.replacement.value := a.original]; }
    }
    assert actions[..|actions|] == actions;
    generation := 0;
    var current := resourceId;
    var seen: set<int> := {};
    while current in parent && current !in seen
      invariant generation + Walk(parent, current, seen) == Walk(parent, resourceId, {})
      decreases parent.Keys - seen
    {
      seen := seen + {current};
      generation := generation + 1;
      current := parent[current];
    }
  }

  /** `path` follows parents from its first element on. */
  predicate Climbs(parent: map<int, int>, path: seq<int>) {
    path != [] && forall i :: 0 <= i < |path| - 1 ==> path[i] in parent && path[i + 1] == parent[path[i]]
  }

  /** On any log whatever, the walk ends: its steps visit different ids, and it
      stops at an id without a parent or at one it has visited. */
  lemma {:induction false} WalkIsLongestSimpleClimb(parent: map<int, int>, id: int, seen: set<int>)
      returns (path: seq<int>)
    ensures Climbs(parent, path) && path[0] == id && |path| == Walk(parent, id, seen) + 1
    ensures forall i :: 0 <= i < |path| - 1 ==> path[i] !in seen
    ensures Distinct(path[..|path| - 1])
    ensures path[|path| - 1] !in parent || path[|path| - 1] in seen || path[|path| - 1] in path[..|path| - 1]
    decreases parent.Keys - seen
  {
    if id in parent && id !in seen {
      var rest := WalkIsLongestSimpleClimb(parent, parent[id], seen + {id});
      path := [id] + rest;
      assert forall i :: 0 < i < |path| ==> path[i] == rest[i - 1];
      assert path[..|path| - 1] == [id] + rest[..|rest| - 1];
    } else {
      path := [id];
    }
  }

  /** `id` has exactly `n` ancestors, the last one without a parent. */
  predicate ChainLength(parent: map<int, int>, id: int, n: nat)
    decreases n
  {
    if id in parent then n > 0 && ChainLength(parent, parent[id], n - 1) else n == 0
  }

  lemma {:induction false} ChainLengthUnique(parent: map<int, int>, id: int, n: nat, m: nat)
    requires ChainLength(parent, id, n) && ChainLength(parent, id, m)
    ensures n == m
    decreases n
  {
    if id in parent { ChainLengthUnique(parent, parent[id], n - 1, m - 1); }
  }

  ghost predicate LongerChain(parent: map<int, int>, id: int, n: nat) {
    exists m: nat :: m > n && ChainLength(parent, id, m)
  }

  /** Wherever the chain above an id ends, the walk returns its length. */
  lemma {:induction false} WalkOfChain(parent: map<int, int>, id: int, n: nat, seen: set<int>)
    requires ChainLength(parent, id, n)
    requires forall s :: s in seen ==> LongerChain(parent, s, n)
    ensures Walk(parent, id, seen) == n
    decreases n
  {
    if id in seen {
      var m: nat :| m > n && ChainLength(parent, id, m);
      ChainLengthUnique(parent, id, n, m);
    }
    if id in parent {
      forall s | s in seen + {id} ensures LongerChain(parent, s, n - 1) {
        if s == id {
          assert ChainLength(parent, s, n);
        } else {
          var m: nat :| m > n && ChainLength(parent, s, m);
        }
      }
      WalkOfChain(parent, parent[id], n - 1, seen + {id});
    }
  }

  lemma {:induction false} ClimbOutIsChain(parent: map<int, int>, path: seq<int>)
    requires Climbs(parent, path) && path[|path| - 1] !in parent
    ensures ChainLength(parent, path[0], |path| - 1)
  {
    if |path| > 1 {
      var rest := path[1..];
      assert rest[|rest| - 1] == path[|path| - 1];
      ClimbOutIsChain(parent, rest);
    }
  }

  ghost predicate ChainEnds(parent: map<int, int>, id: int) { exists n: nat :: ChainLength(parent, id, n) }

  lemma {:induction false} ChainAlongClimb(parent: map<int, int>, path: seq<int>, n: nat, k: nat)
    requires Climbs(parent, path) && ChainLength(parent, path[0], n) && k < |path| && k <= n
    ensures ChainLength(parent, path[k], n - k)
  {
    if k > 0 { ChainAlongClimb(parent, path, n, k - 1); }
  }

  /** On a walk that ends where it has been, every further climb stays. */
  lemma {:induction false} ClimbStaysOnWalk(parent: map<int, int>, path: seq<int>, climb: seq<int>, k: nat)
    requires Climbs(parent, path) && Climbs(parent, climb) && climb[0] == path[0] && k < |climb|
    requires path[|path| - 1] !in parent || path[|path| - 1] in path[..|path| - 1]
    ensures climb[k] in path
  {
    if k > 0 {
      ClimbStaysOnWalk(parent, path, climb, k - 1);
      var i :| 0 <= i < |path| && path[i] == climb[k - 1];
      assert climb[k - 1] in parent && climb[k] == parent[climb[k - 1]];
      if i == |path| - 1 {
        var j :| 0 <= j < |path| - 1 && path[j] == path[i];
        assert path[j + 1] == climb[k];
      } else {
        assert path[i + 1] == climb[k];
      }
    }
  }

  /** What the walk means on any log. It lists different ids, all that can be
      climbed to, and returns the number of its steps. The chain above the id ends
      if and only if the walk stops at an id without a parent, and the result is
      then the length of the chain; otherwise it counts the different ids on it. */
  lemma {:induction false} WalkMeans(parent: map<int, int>, id: int) returns (path: seq<int>)
    ensures Climbs(parent, path) && path[0] == id && |path| == Walk(parent, id, {}) + 1
    ensures Distinct(path[..|path| - 1])
    ensures forall climb, k: nat :: Climbs(parent, climb) && climb[0] == id && k < |climb| ==> climb[k] in path
    ensures path[|path| - 1] !in parent <==> ChainEnds(parent, id)
    ensures forall n: nat :: ChainLength(parent, id, n) ==> n == Walk(parent, id, {})
    ensures path[|path| - 1] in parent ==> path[|path| - 1] in path[..|path| - 1]
  {
    path := WalkIsLongestSimpleClimb(parent, id, {});
    forall climb, k: nat | Climbs(parent, climb) && climb[0] == id && k < |climb| ensures climb[k] in path {
      ClimbStaysOnWalk(parent, path, climb, k);
    }
    forall n: nat | ChainLength(parent, id, n) ensures n == Walk(parent, id, {}) && path[|path| - 1] !in parent {
      WalkOfChain(parent, id, n, {});
      ChainAlongClimb(parent, path, n, n);
    }
    if path[|path| - 1] !in parent {
      ClimbOutIsChain(parent, path);
      var n: nat := |path| - 1;
      assert ChainLength(parent, id, n);
    }
  }

  // --------------------------------------------------------------------- marks

  datatype Mark = Refunded(amount: int) | Replaced(replacement: Option<int>) | Replacement(original: int) | Claimed

  predicate IsReplacementOf(a: Action, id: int) { a.kind.Replace? && HasReplacement(a) && a.replacement.value == id }

  predicate Names(a: Action, id: int) { a.original == id || IsReplacementOf(a, id) }

  function MarkBy(a: Action, id: int): Mark
    requires Names(a, id)
  {
    if IsReplacementOf(a, id) then Replacement(a.original)
    else if a.kind.Refund? then Refunded(a.amount)
    else Replaced(a.replacement)
  }

  function MarkOf(claims: seq<int>, actions: seq<Action>, id: int): Option<Mark> {
    if actions == [] then (if id in claims then Some(Claimed) else None)
    else
      var last := actions[|actions| - 1];
      if Names(last, id) then Some(MarkBy(last, id)) else MarkOf(claims, actions[..|actions| - 1], id)
  }

  ghost predicate ShowsMarks(marks: map<int, Mark>, claims: seq<int>, actions: seq<Action>) {
    forall id :: (if id in marks then Some(marks[id]) else None) == MarkOf(claims, actions, id)
  }

  method DeliveryResourceMarks(claims: seq<int>, actions: seq<Action>) returns (marks: map<int, Mark>)
    ensures ShowsMarks(marks, claims, actions)
  {
    marks := map[];
    for i := 0 to |claims|
      invariant forall id ::
        (if id in marks then Some(marks[id]) else None) == if id in claims[..i] then Some(Claimed) else None
    {
      marks := marks[claims[i] := Claimed];
    }
    for i := 0 to |actions|
      invariant ShowsMarks(marks, claims, actions[..i])
    {
      assert actions[..i + 1][..i] == actions[..i];
      var a := actions[i];
      if a.kind.Refund? {
        marks := marks[a.original := Refunded(a.amount)];
      } else {
        marks := marks[a.original := Replaced(a.replacement)];
        if a.replacement.Some? && a.replacement.value != 0 {
          marks := marks[a.replacement.value := Replacement(a.original)];
        }
      }
    }
    assert actions[..|actions|] == actions;
  }

  /** A row's mark is that of the last action naming it, at `i`; without one
      (`i == -1`) it is the bare claim, if there is one. */
  lemma {:induction false} LastNamingActionWins(claims: seq<int>, actions: seq<Action>, id: int, i: int)
    requires -1 <= i < |actions| && (i >= 0 ==> Names(actions[i], id))
    requires forall j :: i < j < |actions| ==> !Names(actions[j], id)
    ensures MarkOf(claims, actions, id) ==
      if i >= 0 then Some(MarkBy(actions[i], id)) else if id in claims then Some(Claimed) else None
  {
    if actions != [] && i < |actions| - 1 {
      LastNamingActionWins(claims, actions[..|actions| - 1], id, i);
    }
  }

  // ---------------------------------------------------------------- claim rules

  const MAX_WARRANTY_CLAIM_GENERATION := 1

  datatype Row = Row(id: int, status: string)

  function ClaimableResourceIds(rows: seq<Row>, claimed: seq<int>): (r: seq<int>)
    ensures forall id :: id in r <==> id !in claimed && Row(id, "assigned") in rows
  {
    if rows == [] then []
    else
      var rest := ClaimableResourceIds(rows[1..], claimed);
      if rows[0].status == "assigned" && rows[0].id !in claimed then [rows[0].id] + rest else rest
  }

  predicate IsDeliveryRowClaimable(status: string, mark: Option<Mark>, generation: nat) {
    && status == "assigned"
    && generation <= MAX_WARRANTY_CLAIM_GENERATION
    && !(mark.Some? && (mark.value.Refunded? || mark.value.Replaced? || mark.value.Claimed?))
  }

  datatype LineMark = LineClaimed | LineRefunded(amount: int)

  datatype LineState = Claimable | InClaim | AlreadyRefunded | Inactive

  function ProxyLineClaimState(line: int, status: string, claimed: set<int>, refunded: set<int>): LineState {
    if line in refunded then AlreadyRefunded
    else if line in claimed then InClaim
    else if status == "allocated" || status == "offline" then Claimable
    else Inactive
  }

  function LinesOf(actions: seq<ProxyAction>): (r: seq<int>)
    ensures |r| == |actions| && forall i :: 0 <= i < |r| ==> r[i] == actions[i].line
  {
    if actions == [] then [] else LinesOf(actions[..|actions| - 1]) + [actions[|actions| - 1].line]
  }

  /** The mark of a line: the last refund of it wins, then the claim. */
  function LineMarkOf(claimed: seq<int>, actions: seq<ProxyAction>, line: int): (r: Option<LineMark>)
    ensures r.None? <==> line !in claimed && line !in LinesOf(actions)
    ensures r.Some? && r.value.LineRefunded? <==> line in LinesOf(actions)
  {
    if actions == [] then (if line in claimed then Some(LineClaimed) else None)
    else
      var last := actions[|actions| - 1];
      if last.line == line then Some(LineRefunded(last.amount)) else LineMarkOf(claimed, actions[..|actions| - 1], line)
  }

  ghost predicate ShowsLineMarks(marks: map<int, LineMark>, claimed: seq<int>, actions: seq<ProxyAction>) {
    forall l :: (if l in marks then Some(marks[l]) else None) == LineMarkOf(claimed, actions, l)
  }

  method ProxyLineMarks(claimed: seq<int>, actions: seq<ProxyAction>) returns (marks: map<int, LineMark>)
    ensures ShowsLineMarks(marks, claimed, actions)
  {
    marks := map[];
    for i := 0 to |claimed|
      invariant forall l ::
        (if l in marks then Some(marks[l]) else None) == if l in claimed[..i] then Some(LineClaimed) else None
    {
      marks := marks[claimed[i] := LineClaimed];
    }
    for i := 0 to |actions|
      invariant ShowsLineMarks(marks, claimed, actions[..i])
    {
      assert actions[..i + 1][..i] == actions[..i];
      marks := marks[actions[i].line := LineRefunded(actions[i].amount)];
    }
    assert actions[..|actions|] == actions;
  }

  /** A line reads as refunded with the amount of the last refund naming it, at
      `i`; without one (`i == -1`) it is the bare claim, if there is one. */
  lemma {:induction false} LastRefundWins(claimed: seq<int>, actions: seq<ProxyAction>, line: int, i: int)
    requires -1 <= i < |actions| && (i >= 0 ==> actions[i].line == line)
    requires forall j :: i < j < |actions| ==> actions[j].line != line
    ensures LineMarkOf(claimed, actions, line) ==
      if i >= 0 then Some(LineRefunded(actions[i].amount)) else if line in claimed then Some(LineClaimed) else None
  {
    if actions != [] && i < |actions| - 1 {
      LastRefundWins(claimed, actions[..|actions| - 1], line, i);
    }
  }

  /** What the form says of a line and what the order page marks it as agree. */
  method LineStateMatchesMark(line: int, status: string, claimed: seq<int>, actions: seq<ProxyAction>)
      returns (state: LineState, mark: Option<LineMark>)
    ensures state == ProxyLineClaimState(line, status, Elements(claimed), Elements(LinesOf(actions)))
    ensures state.AlreadyRefunded? <==> mark.Some? && mark.value.LineRefunded?
    ensures state.InClaim? <==> mark == Some(LineClaimed)
  {
    var marks := ProxyLineMarks(claimed, actions);
    mark := if line in marks then Some(marks[line]) else None;
    state := ProxyLineClaimState(line, status, set l | l in claimed, set l | l in LinesOf(actions));
  }

  /** `proxyRefundTotal`: each line counted once, a line without a cap as 0. */
  function CapOf(caps: map<int, int>, line: int): int { if line in caps then caps[line] else 0 }

  function SumCaps(caps: map<int, int>, lines: seq<int>): int {
    if lines == [] then 0 else SumCaps(caps, lines[..|lines| - 1]) + CapOf(caps, lines[|lines| - 1])
  }

  datatype LineItem = LineItem(line: int, cap: Option<int>)

  function CapsOf(items: seq<LineItem>): map<int, int> {
    if items == [] then map[]
    else
      var last := items[|items| - 1];
      CapsOf(items[..|items| - 1])[last.line := if last.cap.Some? then last.cap.value else 0]
  }

  method ProxyRefundTotal(items: seq<LineItem>, lineNos: seq<int>) returns (total: int)
    ensures total == SumCaps(CapsOf(items), Unique(lineNos))
  {
    var caps: map<int, int> := map[];
    for i := 0 to |items|
      invariant caps == CapsOf(items[..i])
    {
      assert items[..i + 1][..i] == items[..i];
      caps := caps[items[i].line := if items[i].cap.Some? then items[i].cap.value else 0];
    }
    assert items[..|items|] == items;
    total := 0;
    var lines := Unique(lineNos);
    for i := 0 to |lines|
      invariant total == SumCaps(caps, lines[..i])
    {
      assert lines[..i + 1][..i] == lines[..i];
      total := total + if lines[i] in caps then caps[lines[i]] else 0;
    }
    assert lines[..|lines|] == lines;
  }

  /** Refunding in two rounds pays what one round would: the second round adds
      the lines the first did not name. */
  lemma {:induction false} RefundTotalSplits(caps: map<int, int>, a: seq<int>, b: seq<int>)
    ensures SumCaps(caps, Unique(a + b)) == SumCaps(caps, Unique(a)) + SumCaps(caps, Without(Unique(b), Elements(a)))
  {
    if b == [] {
      assert a + b == a;
    } else {
      RefundTotalSplits(caps, a, b[..|b| - 1]);
      OneMoreForBoth(caps, a, b);
    }
  }

  /** The last line adds the same to one round and to the second of two. */
  lemma {:induction false} OneMoreForBoth(caps: map<int, int>, a: seq<int>, b: seq<int>)
    requires b != []
    ensures var c := b[..|b| - 1];
      SumCaps(caps, Unique(a + b)) - SumCaps(caps, Unique(a + c)) ==
        SumCaps(caps, Without(Unique(b), Elements(a))) - SumCaps(caps, Without(Unique(c), Elements(a)))
  {
    LastApart(a, b);
    OneMoreTwice(caps, a, b[..|b| - 1], b[|b| - 1]);
  }

  lemma {:induction false} LastApart(a: seq<int>, b: seq<int>)
    requires b != []
    ensures var c, last := b[..|b| - 1], b[|b| - 1]; b == c + [last] && a + b == a + c + [last]
  {
  }

  lemma {:induction false} OneMoreTwice(caps: map<int, int>, a: seq<int>, c: seq<int>, last: int)
    ensures SumCaps(caps, Unique(a + c + [last])) - SumCaps(caps, Unique(a + c)) ==
      SumCaps(caps, Without(Unique(c + [last]), Elements(a))) - SumCaps(caps, Without(Unique(c), Elements(a)))
  {
    NothingGone(Unique(a + c));
    NothingGone(Unique(a + c + [last]));
    OneMoreLine(caps, a + c, {}, last);
    OneMoreLine(caps, c, Elements(a), last);
  }

  /** What one more line adds to a total, with the lines of `gone` left out. */
  lemma {:induction false} OneMoreLine(caps: map<int, int>, s: seq<int>, gone: set<int>, last: int)
    ensures SumCaps(caps, Without(Unique(s + [last]), gone)) ==
      SumCaps(caps, Without(Unique(s), gone)) + (if last in gone || last in s then 0 else CapOf(caps, last))
  {
    UniqueGrows(s, last);
    WithoutAppend(Unique(s), last, gone);
    OneMoreCap(caps, Without(Unique(s), gone), last);
  }

  lemma {:induction false} OneMoreCap(caps: map<int, int>, s: seq<int>, x: int)
    ensures SumCaps(caps, s + [x]) == SumCaps(caps, s) + CapOf(caps, x) && s + [] == s
  {
    assert (s + [x])[..|s|] == s;
  }

  lemma {:induction false} UniqueGrows(s: seq<int>, last: int)
    ensures Unique(s + [last]) == if last in s then Unique(s) else Unique(s) + [last]
  {
    assert (s + [last])[..|s|] == s;
  }

  lemma {:induction false} NothingGone(s: seq<int>)
    ensures Without(s, {}) == s
  {
    if s != [] { NothingGone(s[1..]); }
  }

  lemma {:induction false} WithoutAppend(s: seq<int>, x: int, gone: set<int>)
    ensures Without(s + [x], gone) == Without(s, gone) + (if x in gone then [] else [x])
  {
    if s != [] {
      assert (s + [x])[1..] == s[1..] + [x];
      WithoutAppend(s[1..], x, gone);
    } else {
      assert Without([x][1..], gone) == [];
    }
  }
}
