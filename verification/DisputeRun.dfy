/** Whole runs of a dispute: claims guarded by the buyer's form, remedies guarded
    by the seller endpoint, and what the derived views say after any of them. */
module DisputeRun {
  import opened DisputeCase
  import opened JsCollections
  import opened Options

  datatype Line = Line(no: int, status: string)

  datatype Case = Case(
    rows: seq<Row>,
    claims: seq<int>,
    actions: seq<Action>,
    lines: seq<Line>,
    claimedLines: seq<int>,
    proxyActions: seq<ProxyAction>)

  datatype Event =
    | Claim(id: int)
    | ReplaceItem(original: int, replacement: int)
    | RefundItem(original: int, amount: int)
    | ClaimLine(line: int)
    | RefundLine(line: int, amount: int)

  function RowIds(rows: seq<Row>): set<int> { set r | r in rows :: r.id }

  function Originals(actions: seq<Action>): (r: seq<int>)
    ensures |r| == |actions| && forall i :: 0 <= i < |r| ==> r[i] == actions[i].original
  {
    if actions == [] then [] else Originals(actions[..|actions| - 1]) + [actions[|actions| - 1].original]
  }

  function ClaimableProxyLineNos(lines: seq<Line>, claimed: seq<int>, actions: seq<ProxyAction>): (r: seq<int>)
    ensures forall l :: l in r <==>
      l !in claimed && l !in LinesOf(actions) && (Line(l, "allocated") in lines || Line(l, "offline") in lines)
  {
    if lines == [] then []
    else
      var rest := ClaimableProxyLineNos(lines[1..], claimed, actions);
      var claimedLines, refunded := set l | l in claimed, set l | l in LinesOf(actions);
      if ProxyLineClaimState(lines[0].no, lines[0].status, claimedLines, refunded).Claimable?
      then [lines[0].no] + rest else rest
  }

  /** The two rules of the claim form: the id is claimable, and its generation
      is within the warranty. */
  predicate FormAllows(c: Case, id: int) {
    id in ClaimableResourceIds(c.rows, c.claims) && Generation(c.actions, id) <= MAX_WARRANTY_CLAIM_GENERATION
  }

  /** A claimed item without a remedy. */
  predicate Pending(c: Case, id: int) { id in c.claims && id !in Originals(c.actions) }

  predicate Enabled(c: Case, e: Event) {
    match e
    case Claim(id) => FormAllows(c, id)
    case ReplaceItem(original, replacement) =>
      Pending(c, original) && replacement != 0 && replacement !in RowIds(c.rows)
    case RefundItem(original, _) => Pending(c, original)
    case ClaimLine(line) => line in ClaimableProxyLineNos(c.lines, c.claimedLines, c.proxyActions)
    case RefundLine(line, _) => line in c.claimedLines && line !in LinesOf(c.proxyActions)
  }

  /** A remedied item is no longer handed over. */
  function Withdraw(rows: seq<Row>, id: int): (r: seq<Row>)
    ensures |r| == |rows|
    ensures forall i :: 0 <= i < |rows| ==> r[i] == if rows[i].id == id then Row(id, "error") else rows[i]
  {
    if rows == [] then []
    else [if rows[0].id == id then Row(id, "error") else rows[0]] + Withdraw(rows[1..], id)
  }

  function Step(c: Case, e: Event): Case {
    match e
    case Claim(id) => c.(claims := c.claims + [id])
    case ReplaceItem(original, replacement) =>
      c.(rows := Withdraw(c.rows, original) + [Row(replacement, "assigned")],
         actions := c.actions + [Action(original, Some(replacement), Replace, 0)])
    case RefundItem(original, amount) =>
      c.(rows := Withdraw(c.rows, original), actions := c.actions + [Action(original, None, Refund, amount)])
    case ClaimLine(line) => c.(claimedLines := c.claimedLines + [line])
    case RefundLine(line, amount) => c.(proxyActions := c.proxyActions + [ProxyAction(line, amount)])
  }

  ghost predicate Initial(c: Case) {
    && c.claims == [] && c.actions == [] && c.claimedLines == [] && c.proxyActions == []
    && forall i, j :: 0 <= i < j < |c.rows| ==> c.rows[i].id != c.rows[j].id
  }

  ghost predicate Run(cs: seq<Case>, es: seq<Event>) {
    && |cs| == |es| + 1
    && Initial(cs[0])
    && forall i :: 0 <= i < |es| ==> Enabled(cs[i], es[i]) && cs[i + 1] == Step(cs[i], es[i])
  }

  // ------------------------------------------------------------------ invariants

  /** Each item is claimed once, and only items of the order are. */
  ghost predicate ClaimsFit(claims: seq<int>, ids: set<int>) {
    Distinct(claims) && forall x :: x in claims ==> x in ids
  }

  /** Each item is remedied once, and only claimed ones are. */
  ghost predicate RemediesFit(remedied: seq<int>, claims: seq<int>) {
    Distinct(remedied) && forall x :: x in remedied ==> x in claims
  }

  /** What an action may say of a replacement. */
  ghost predicate ActionFits(a: Action, ids: set<int>) {
    && (a.kind.Refund? ==> a.replacement.None?)
    && (a.kind.Replace? ==> HasReplacement(a) && a.replacement.value in ids)
  }

  ghost predicate ActionsFit(actions: seq<Action>, ids: set<int>) {
    forall i :: 0 <= i < |actions| ==> ActionFits(actions[i], ids)
  }

  /** No item replaces twice, and none that was remedied replaces any more. */
  ghost predicate LinksFit(actions: seq<Action>) {
    && (forall i, j :: 0 <= i < j < |actions| && actions[i].kind.Replace? && actions[j].kind.Replace? ==>
          actions[i].replacement != actions[j].replacement)
    && (forall i, j :: 0 <= i <= j < |actions| ==> !IsReplacementOf(actions[j], actions[i].original))
  }

  ghost predicate LogInv(c: Case) {
    && ClaimsFit(c.claims, RowIds(c.rows)) && RemediesFit(Originals(c.actions), c.claims)
    && ActionsFit(c.actions, RowIds(c.rows)) && LinksFit(c.actions)
  }

  /** Different items in every row, and no remedied one among those handed over. */
  ghost predicate RowsFit(rows: seq<Row>, remedied: seq<int>) {
    && (forall i, j :: 0 <= i < j < |rows| ==> rows[i].id != rows[j].id)
    && (forall i :: 0 <= i < |rows| && rows[i].id in remedied ==> rows[i].status == "error")
  }

  ghost predicate RowInv(c: Case) { RowsFit(c.rows, Originals(c.actions)) }

  ghost predicate LineInv(c: Case) {
    Distinct(c.claimedLines) && Distinct(LinesOf(c.proxyActions))
    && forall l :: l in LinesOf(c.proxyActions) ==> l in c.claimedLines
  }

  predicate ChainAtMost(parent: map<int, int>, id: int, n: nat)
  {
    exists m: nat :: m <= n && ChainLength(parent, id, m)
  }

  ghost predicate WarrantyInv(c: Case) {
    var parent := Parents(c.actions);
    && (forall x :: x in parent ==> x in RowIds(c.rows) && parent[x] in RowIds(c.rows))
    && (forall x :: ChainAtMost(parent, x, 2))
    && (forall x :: x in c.claims ==> ChainAtMost(parent, x, 1))
  }

  ghost predicate Inv(c: Case) { LogInv(c) && RowInv(c) && LineInv(c) && WarrantyInv(c) }

  lemma {:induction false} WithdrawKeepsIds(rows: seq<Row>, id: int)
    ensures RowIds(Withdraw(rows, id)) == RowIds(rows)
  {
    var r := Withdraw(rows, id);
    forall x | x in RowIds(rows) ensures x in RowIds(r) {
      var i :| 0 <= i < |rows| && rows[i].id == x;
      assert r[i].id == x && r[i] in r;
    }
    forall x | x in RowIds(r) ensures x in RowIds(rows) {
      var i :| 0 <= i < |r| && r[i].id == x;
      assert rows[i].id == x && rows[i] in rows;
    }
  }

  lemma {:induction false} AppendRow(rows: seq<Row>, r: Row)
    ensures RowIds(rows + [r]) == RowIds(rows) + {r.id}
  {
    assert r in rows + [r];
    forall x | x in RowIds(rows + [r]) ensures x in RowIds(rows) + {r.id} {
      var q :| q in rows + [r] && q.id == x;
    }
  }

  lemma {:induction false} AppendAction(actions: seq<Action>, a: Action)
    ensures Originals(actions + [a]) == Originals(actions) + [a.original]
    ensures Parents(actions + [a]) ==
      if HasReplacement(a) then Parents(actions)[a.replacement.value := a.original] else Parents(actions)
  {
    assert (actions + [a])[..|actions|] == actions;
  }

  /** A new leaf below `o` changes no chain that did not contain it. */
  lemma {:induction false} ChainKept(parent: map<int, int>, leaf: int, o: int, x: int, n: nat)
    requires leaf !in parent && (forall y :: y in parent ==> parent[y] != leaf)
    requires x != leaf && ChainLength(parent, x, n)
    ensures ChainLength(parent[leaf := o], x, n)
    decreases n
  {
    if x in parent {
      ChainKept(parent, leaf, o, parent[x], n - 1);
    }
  }

  lemma {:induction false} LeafKeepsWarranty(parent: map<int, int>, ids: set<int>, leaf: int, o: int)
    requires forall x :: x in parent ==> x in ids && parent[x] in ids
    requires leaf !in ids && o in ids && ChainAtMost(parent, o, 1) && forall x :: ChainAtMost(parent, x, 2)
    ensures var p := parent[leaf := o];
      && (forall x, n: nat :: x != leaf && ChainAtMost(parent, x, n) ==> ChainAtMost(p, x, n))
      && (forall x :: ChainAtMost(p, x, 2))
  {
    var p := parent[leaf := o];
    forall x, n: nat | x != leaf && ChainAtMost(parent, x, n) ensures ChainAtMost(p, x, n) {
      var m: nat :| m <= n && ChainLength(parent, x, m);
      ChainKept(parent, leaf, o, x, m);
    }
    assert ChainAtMost(p, o, 1);
    var m: nat :| m <= 1 && ChainLength(p, o, m);
    assert ChainLength(p, leaf, m + 1);
    forall x ensures ChainAtMost(p, x, 2) {
      if x == leaf { assert ChainLength(p, x, m + 1); } else { assert ChainAtMost(parent, x, 2); }
    }
  }

  lemma {:induction false} InitialInv(c: Case)
    requires Initial(c)
    ensures Inv(c)
  {
    forall x ensures ChainAtMost(Parents(c.actions), x, 2) { assert ChainLength(map[], x, 0); }
  }

  lemma {:induction false} ClaimKeepsInv(c: Case, id: int)
    requires Inv(c) && Enabled(c, Claim(id))
    ensures Inv(Step(c, Claim(id)))
  {
    assert Row(id, "assigned") in c.rows;
    assert ChainAtMost(Parents(c.actions), id, 2);
    var m: nat :| m <= 2 && ChainLength(Parents(c.actions), id, m);
    WalkOfChain(Parents(c.actions), id, m, {});
  }

  /** What a remedy does to the rows and to the log. */
  lemma {:induction false} RemedyKeepsLog(c: Case, a: Action, rows: seq<Row>)
    requires LogInv(c) && Pending(c, a.original) && RowIds(c.rows) <= RowIds(rows)
    requires a.kind.Refund? ==> a.replacement.None?
    requires a.kind.Replace? ==>
      HasReplacement(a) && a.replacement.value !in RowIds(c.rows) && a.replacement.value in RowIds(rows)
    ensures LogInv(c.(rows := rows, actions := c.actions + [a]))
  {
    AppendAction(c.actions, a);
    RemedyFits(Originals(c.actions), c.claims, a.original);
    LinkFits(c.actions, a, RowIds(c.rows), c.claims);
  }

  lemma {:induction false} RemedyFits(remedied: seq<int>, claims: seq<int>, original: int)
    requires RemediesFit(remedied, claims) && original in claims && original !in remedied
    ensures RemediesFit(remedied + [original], claims)
  {
  }

  lemma {:induction false} LinkFits(actions: seq<Action>, a: Action, ids: set<int>, claims: seq<int>)
    requires ActionsFit(actions, ids) && LinksFit(actions) && RemediesFit(Originals(actions), claims)
    requires ClaimsFit(claims, ids) && a.original in claims
    requires a.kind.Replace? ==> HasReplacement(a) && a.replacement.value !in ids
    ensures LinksFit(actions + [a])
  {
    var x := actions + [a];
    forall i | 0 <= i < |actions| ensures x[i].original in ids && x[i] == actions[i] {
      assert Originals(actions)[i] in Originals(actions);
    }
    forall i, j | 0 <= i < j < |x| && x[i].kind.Replace? && x[j].kind.Replace?
      ensures x[i].replacement != x[j].replacement
    {
      assert ActionFits(actions[i], ids);
    }
  }

  lemma {:induction false} ReplaceKeepsInv(c: Case, original: int, replacement: int)
    requires Inv(c) && Enabled(c, ReplaceItem(original, replacement))
    ensures Inv(Step(c, ReplaceItem(original, replacement)))
  {
    var x := Step(c, ReplaceItem(original, replacement));
    var a := Action(original, Some(replacement), Replace, 0);
    WithdrawKeepsIds(c.rows, original);
    AppendRow(Withdraw(c.rows, original), Row(replacement, "assigned"));
    RemedyKeepsLog(c, a, x.rows);
    AppendAction(c.actions, a);
    LeafKeepsWarranty(Parents(c.actions), RowIds(c.rows), replacement, original);
    ReplaceKeepsRows(c, original, replacement);
  }

  lemma {:induction false} ReplaceKeepsRows(c: Case, original: int, replacement: int)
    requires RowInv(c) && LogInv(c) && replacement !in RowIds(c.rows) && original in c.claims
    ensures RowInv(Step(c, ReplaceItem(original, replacement)))
  {
    var remedied := Originals(c.actions) + [original];
    AppendAction(c.actions, Action(original, Some(replacement), Replace, 0));
    WithdrawFits(c.rows, Originals(c.actions), original);
    WithdrawKeepsIds(c.rows, original);
    assert forall x :: x in remedied ==> x in RowIds(c.rows);
    NewRowFits(Withdraw(c.rows, original), remedied, replacement);
  }

  lemma {:induction false} WithdrawFits(rows: seq<Row>, remedied: seq<int>, id: int)
    requires RowsFit(rows, remedied)
    ensures RowsFit(Withdraw(rows, id), remedied + [id])
  {
  }

  lemma {:induction false} NewRowFits(rows: seq<Row>, remedied: seq<int>, id: int)
    requires RowsFit(rows, remedied) && id !in RowIds(rows) && id !in remedied
    ensures RowsFit(rows + [Row(id, "assigned")], remedied)
  {
    forall i | 0 <= i < |rows| ensures rows[i].id != id { assert rows[i] in rows; }
  }

  lemma {:induction false} RefundKeepsInv(c: Case, original: int, amount: int)
    requires Inv(c) && Enabled(c, RefundItem(original, amount))
    ensures Inv(Step(c, RefundItem(original, amount)))
  {
    var a := Action(original, None, Refund, amount);
    WithdrawKeepsIds(c.rows, original);
    RemedyKeepsLog(c, a, Withdraw(c.rows, original));
    AppendAction(c.actions, a);
    RefundKeepsRows(c, original, amount);
  }

  lemma {:induction false} RefundKeepsRows(c: Case, original: int, amount: int)
    requires RowInv(c)
    ensures RowInv(Step(c, RefundItem(original, amount)))
  {
    AppendAction(c.actions, Action(original, None, Refund, amount));
    WithdrawFits(c.rows, Originals(c.actions), original);
  }

  lemma {:induction false} AppendLine(actions: seq<ProxyAction>, a: ProxyAction)
    ensures LinesOf(actions + [a]) == LinesOf(actions) + [a.line]
  {
    assert (actions + [a])[..|actions|] == actions;
  }

  lemma {:induction false} StepKeepsInv(c: Case, e: Event)
    requires Inv(c) && Enabled(c, e)
    ensures Inv(Step(c, e))
  {
    match e
    case Claim(id) => ClaimKeepsInv(c, id);
    case ReplaceItem(original, replacement) => ReplaceKeepsInv(c, original, replacement);
    case RefundItem(original, amount) => RefundKeepsInv(c, original, amount);
    case ClaimLine(line) =>
    case RefundLine(line, amount) => AppendLine(c.proxyActions, ProxyAction(line, amount));
  }

  lemma {:induction false} RunInv(cs: seq<Case>, es: seq<Event>, n: nat)
    requires Run(cs, es) && n < |cs|
    ensures Inv(cs[n])
  {
    if n == 0 { InitialInv(cs[0]); } else {
      RunInv(cs, es, n - 1);
      StepKeepsInv(cs[n - 1], es[n - 1]);
    }
  }

  // ---------------------------------------------------------------- main results

  /** In every reachable case the replacement graph is a forest of height two:
      above every id the chain ends, after exactly `Generation` steps. */
  lemma {:induction false} ForestOfHeightTwo(cs: seq<Case>, es: seq<Event>, n: nat, id: int)
    requires Run(cs, es) && n < |cs|
    ensures var g := Generation(cs[n].actions, id);
      g <= 2 && ChainLength(Parents(cs[n].actions), id, g) && (id in cs[n].claims ==> g <= 1)
  {
    RunInv(cs, es, n);
    var parent := Parents(cs[n].actions);
    assert ChainAtMost(parent, id, 2);
    var m: nat :| m <= 2 && ChainLength(parent, id, m);
    WalkOfChain(parent, id, m, {});
    if id in cs[n].claims {
      var k: nat :| k <= 1 && ChainLength(parent, id, k);
      ChainLengthUnique(parent, id, m, k);
    }
  }

  /** The edges of the graph are the replacements: an id has a parent if and only
      if a replace action brought it in, which then is the only one, and the
      parent is the item replaced. */
  lemma {:induction false} EdgesAreReplacements(cs: seq<Case>, es: seq<Event>, n: nat, id: int)
    requires Run(cs, es) && n < |cs|
    ensures var c := cs[n];
      && (id in Parents(c.actions) <==> IsReplacement(c.actions, id))
      && (forall i :: 0 <= i < |c.actions| && IsReplacementOf(c.actions[i], id) ==>
            id in Parents(c.actions) && Parents(c.actions)[id] == c.actions[i].original)
      && (forall i, j :: 0 <= i < j < |c.actions| ==>
            !IsReplacementOf(c.actions[i], id) || !IsReplacementOf(c.actions[j], id))
  {
    RunInv(cs, es, n);
    var actions := cs[n].actions;
    forall i | 0 <= i < |actions| && IsReplacementOf(actions[i], id)
      ensures id in Parents(actions) && Parents(actions)[id] == actions[i].original
    {
      ParentOfReplacement(actions, i);
    }
    if id in Parents(actions) { var i := ReplacementOfParent(actions, id); }
  }

  lemma {:induction false} ReplacementOfParent(actions: seq<Action>, id: int) returns (i: nat)
    requires id in Parents(actions)
    requires forall k :: 0 <= k < |actions| && actions[k].kind.Refund? ==> actions[k].replacement.None?
    ensures i < |actions| && IsReplacementOf(actions[i], id)
  {
    i := |actions| - 1;
    if !HasReplacement(actions[i]) || actions[i].replacement.value != id {
      i := ReplacementOfParent(actions[..i], id);
    }
  }

  lemma {:induction false} ParentOfReplacement(actions: seq<Action>, i: nat)
    requires i < |actions| && HasReplacement(actions[i])
    requires forall j :: i < j < |actions| && HasReplacement(actions[j]) ==>
      actions[j].replacement != actions[i].replacement
    ensures actions[i].replacement.value in Parents(actions)
    ensures Parents(actions)[actions[i].replacement.value] == actions[i].original
  {
    if i < |actions| - 1 { ParentOfReplacement(actions[..|actions| - 1], i); }
  }

  /** Each item is claimed at most once and remedied at most once, and only
      claimed items are. */
  lemma {:induction false} RemediedAtMostOnce(cs: seq<Case>, es: seq<Event>, n: nat)
    requires Run(cs, es) && n < |cs|
    ensures Distinct(cs[n].claims) && Distinct(cs[n].claimedLines)
    ensures forall i, j :: 0 <= i < j < |cs[n].actions| ==> cs[n].actions[i].original != cs[n].actions[j].original
    ensures forall i, j :: 0 <= i < j < |cs[n].proxyActions| ==>
      cs[n].proxyActions[i].line != cs[n].proxyActions[j].line
    ensures forall i :: 0 <= i < |cs[n].actions| ==> cs[n].actions[i].original in cs[n].claims
  {
    RunInv(cs, es, n);
    var o, l := Originals(cs[n].actions), LinesOf(cs[n].proxyActions);
    assert forall i :: 0 <= i < |o| ==> o[i] == cs[n].actions[i].original && o[i] in o;
    assert forall i :: 0 <= i < |l| ==> l[i] == cs[n].proxyActions[i].line;
  }

  // --------------------------------------------------------------------- summary

  datatype Summary = Summary(claimed: nat, pending: nat, refunded: nat, replaced: nat, refundedAmount: int)

  function CountOf(actions: seq<Action>, kind: Kind): nat {
    if actions == [] then 0
    else CountOf(actions[1..], kind) + if actions[0].kind == kind then 1 else 0
  }

  function RefundSum(actions: seq<Action>, proxyActions: seq<ProxyAction>): int {
    if actions != [] then
      (if actions[0].kind.Refund? then actions[0].amount else 0) + RefundSum(actions[1..], proxyActions)
    else if proxyActions != [] then proxyActions[0].amount + RefundSum([], proxyActions[1..])
    else 0
  }

  /** `summarizeDisputeCase`; the two amounts are the payload's own totals. */
  function Summarize(c: Case, disputeRefunded: Option<int>, refunded: Option<int>): Summary {
    var claimedIds, claimedLines := Unique(c.claims), Unique(c.claimedLines);
    Summary(
      |claimedIds| + |claimedLines|,
      |Without(claimedIds, set x | x in Originals(c.actions))| +
        |Without(claimedLines, set l | l in LinesOf(c.proxyActions))|,
      CountOf(c.actions, Refund) + |c.proxyActions|,
      CountOf(c.actions, Replace),
      if disputeRefunded.Some? then disputeRefunded.value
      else if refunded.Some? then refunded.value
      else RefundSum(c.actions, c.proxyActions))
  }

  lemma {:induction false} KindsPartition(actions: seq<Action>)
    ensures CountOf(actions, Refund) + CountOf(actions, Replace) == |actions|
  {
    if actions != [] { KindsPartition(actions[1..]); }
  }

  /** Conservation: what was claimed is pending, refunded or replaced. */
  lemma {:induction false} ClaimedIsAccountedFor(
      cs: seq<Case>, es: seq<Event>, n: nat, disputeRefunded: Option<int>, refunded: Option<int>)
    requires Run(cs, es) && n < |cs|
    ensures var s := Summarize(cs[n], disputeRefunded, refunded);
      s.claimed == s.pending + s.refunded + s.replaced
  {
    var c := cs[n];
    RunInv(cs, es, n);
    UniqueOfDistinct(c.claims);
    UniqueOfDistinct(c.claimedLines);
    KindsPartition(c.actions);
    var o, l := Originals(c.actions), LinesOf(c.proxyActions);
    assert (set x | x in o) == Elements(o) && (set x | x in l) == Elements(l);
    WithoutCounts(c.claims, Elements(o));
    WithoutCounts(c.claimedLines, Elements(l));
    DistinctCardinality(o);
    DistinctCardinality(l);
  }

  /** `isDisputeReadyToAccept`. */
  predicate ReadyToAccept(open: bool, s: Summary, sellerNote: bool) {
    open && if s.claimed > 0 then s.pending == 0 && s.refunded + s.replaced > 0 else sellerNote
  }

  /** The buyer can accept an open case with claims as soon as, and only when,
      nothing claimed is pending. */
  lemma {:induction false} ReadyWhenNothingPending(cs: seq<Case>, es: seq<Event>, n: nat, open: bool, sellerNote: bool)
    requires Run(cs, es) && n < |cs| && (cs[n].claims != [] || cs[n].claimedLines != [])
    ensures ReadyToAccept(open, Summarize(cs[n], None, None), sellerNote) <==>
      open && (forall x :: x in cs[n].claims ==> !Pending(cs[n], x))
      && (forall l :: l in cs[n].claimedLines ==> l in LinesOf(cs[n].proxyActions))
  {
    ClaimedIsAccountedFor(cs, es, n, None, None);
    NothingLeft(Unique(cs[n].claims), Originals(cs[n].actions));
    NothingLeft(Unique(cs[n].claimedLines), LinesOf(cs[n].proxyActions));
    assert cs[n].claims != [] ==> cs[n].claims[0] in Unique(cs[n].claims);
    assert cs[n].claimedLines != [] ==> cs[n].claimedLines[0] in Unique(cs[n].claimedLines);
  }

  lemma {:induction false} NothingLeft(s: seq<int>, done: seq<int>)
    ensures |Without(s, set x | x in done)| == 0 <==> forall x :: x in s ==> x in done
  {
    var gone := set x | x in done;
    var w := Without(s, gone);
    if |w| == 0 {
      forall x | x in s ensures x in done { assert x in w || x in gone; }
    } else {
      var y := w[0];
      assert y in w && y in s && y !in gone;
      assert y !in done;
    }
  }

  // ------------------------------------------------- marks and the two claim rules

  predicate IsReplacement(actions: seq<Action>, id: int) {
    exists i :: 0 <= i < |actions| && IsReplacementOf(actions[i], id)
  }

  /** In a reachable case a row reads as remedied exactly when its item was
      remedied, as a replacement when it is one that was not, and as claimed only
      when it is an original delivery: an item claimed under warranty keeps the
      mark of the replacement it came from. */
  lemma {:induction false} MarksShowTheCase(cs: seq<Case>, es: seq<Event>, n: nat, id: int)
    requires Run(cs, es) && n < |cs|
    ensures var c := cs[n]; var mark := MarkOf(c.claims, c.actions, id);
      && (mark.Some? && (mark.value.Refunded? || mark.value.Replaced?) <==> id in Originals(c.actions))
      && (mark.Some? && mark.value.Replacement? <==> id !in Originals(c.actions) && IsReplacement(c.actions, id))
      && (mark == Some(Claimed) <==> Pending(c, id) && !IsReplacement(c.actions, id))
  {
    RunInv(cs, es, n);
    var c := cs[n];
    var o := Originals(c.actions);
    if id in o {
      var i :| 0 <= i < |o| && o[i] == id;
      assert c.actions[i].original == id;
      forall j | i < j < |c.actions| ensures !Names(c.actions[j], id) { assert o[j] == c.actions[j].original; }
      LastNamingActionWins(c.claims, c.actions, id, i);
    } else if IsReplacement(c.actions, id) {
      var i :| 0 <= i < |c.actions| && IsReplacementOf(c.actions[i], id);
      forall j | i < j < |c.actions| ensures !Names(c.actions[j], id) {
        assert o[j] == c.actions[j].original && o[j] in o;
      }
      LastNamingActionWins(c.claims, c.actions, id, i);
    } else {
      forall j | 0 <= j < |c.actions| ensures !Names(c.actions[j], id) {
        assert o[j] == c.actions[j].original && o[j] in o;
      }
      LastNamingActionWins(c.claims, c.actions, id, -1);
    }
  }

  /** The rule of the order page alone lets through what the form refuses in
      exactly one case: an item claimed under warranty and still pending, whose
      row keeps its replacement mark. It never refuses what the form allows. */
  lemma {:induction false} RulesDifferExactlyOnWarrantyClaims(cs: seq<Case>, es: seq<Event>, n: nat, row: Row)
    requires Run(cs, es) && n < |cs| && row in cs[n].rows
    ensures var c := cs[n];
      var page :=
        IsDeliveryRowClaimable(row.status, MarkOf(c.claims, c.actions, row.id), Generation(c.actions, row.id));
      && (FormAllows(c, row.id) ==> page)
      && (page && !FormAllows(c, row.id) <==>
            row.status == "assigned" && Pending(c, row.id) && IsReplacement(c.actions, row.id))
  {
    var c := cs[n];
    RunInv(cs, es, n);
    MarksShowTheCase(cs, es, n, row.id);
    ForestOfHeightTwo(cs, es, n, row.id);
    var k :| 0 <= k < |c.rows| && c.rows[k] == row;
    if Row(row.id, "assigned") in c.rows {
      var j :| 0 <= j < |c.rows| && c.rows[j] == Row(row.id, "assigned");
      assert j == k;
    }
  }

  /** The difference is reached: an item is claimed, replaced, and the
      replacement claimed under warranty; then the page offers that replacement
      for a further claim and the form does not. */
  lemma {:induction false} TheRulesDoDiffer(first: int, replacement: int) returns (cs: seq<Case>, es: seq<Event>)
    requires first != replacement && replacement != 0
    ensures Run(cs, es) && |es| == 3
    ensures var c := cs[3];
      && Row(replacement, "assigned") in c.rows && !FormAllows(c, replacement)
      && IsDeliveryRowClaimable(
           "assigned", MarkOf(c.claims, c.actions, replacement), Generation(c.actions, replacement))
  {
    var c0 := Case([Row(first, "assigned")], [], [], [], [], []);
    es := [Claim(first), ReplaceItem(first, replacement), Claim(replacement)];
    FirstTwoSteps(c0, first, replacement);
    var c1 := Step(c0, es[0]);
    var c2 := Step(c1, es[1]);
    var c3 := Step(c2, es[2]);
    cs := [c0, c1, c2, c3];
    assert forall i :: 0 <= i < 3 ==> Enabled(cs[i], es[i]) && cs[i + 1] == Step(cs[i], es[i]);
    assert IsReplacementOf(c3.actions[0], replacement);
    RulesDifferExactlyOnWarrantyClaims(cs, es, 3, Row(replacement, "assigned"));
  }

  lemma {:induction false} FirstTwoSteps(c0: Case, first: int, replacement: int)
    requires first != replacement && replacement != 0 && c0 == Case([Row(first, "assigned")], [], [], [], [], [])
    ensures Initial(c0) && Enabled(c0, Claim(first))
    ensures var c1 := Step(c0, Claim(first)); Enabled(c1, ReplaceItem(first, replacement))
    ensures var c2 := Step(Step(c0, Claim(first)), ReplaceItem(first, replacement));
      && Row(replacement, "assigned") in c2.rows && Enabled(c2, Claim(replacement))
      && c2.actions == [Action(first, Some(replacement), Replace, 0)] && c2.claims == [first]
  {
    assert Row(first, "assigned") in c0.rows;
    var c1 := Step(c0, Claim(first));
    assert RowIds(c1.rows) == {first};
    var c2 := Step(c1, ReplaceItem(first, replacement));
    assert c2.rows[1] == Row(replacement, "assigned");
    OneParent(first, replacement);
  }

  lemma {:induction false} OneParent(first: int, replacement: int)
    requires first != replacement && replacement != 0
    ensures Generation([Action(first, Some(replacement), Replace, 0)], replacement) == 1
  {
    var actions := [Action(first, Some(replacement), Replace, 0)];
    assert actions[..0] == [];
    assert Parents(actions) == map[replacement := first];
    assert ChainLength(Parents(actions), first, 0) && ChainLength(Parents(actions), replacement, 1);
    WalkOfChain(Parents(actions), replacement, 1, {});
  }
}
