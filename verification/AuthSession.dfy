/** Who a browser tab shows as signed in: `AuthProvider` of
    frontend/lib/auth.tsx with the rule of frontend/lib/session-identity.ts.

    `/me` answers arrive in any order. Checks are numbered, and only the answer
    to the latest number may set the account. */
module AuthSession {
  import opened Options

  datatype Account = Account(id: int, profile: string)

  datatype Identity = Unresolved | SignedOut | User(id: int)

  /** How `/me` ends: an account, a 401 or 403, or anything else that throws. */
  datatype Reply = Me(account: Account) | Denied | Failure

  datatype Event =
    | Begin                             // a sign-in flow starts its own check
    | Refresh                           // a background re-check, shared with one in flight
    | Answer(number: nat, reply: Reply)
    | RefreshSettled                    // `.finally` of the shared re-check
    | Logout                            // the part after `await api.logout()`
    | Expired                           // the `auth:session-expired` event

  /** `pending` holds the checks whose `/me` is unanswered: the surroundings. */
  datatype World = World(
    checkSeq: nat,
    identity: Identity,
    account: Option<Account>,
    generation: nat,
    inflight: Option<nat>,
    pending: set<nat>)

  const START := World(0, Unresolved, None, 0, None, {})

  predicate IdentityChanged(previous: Identity, next: Identity) {
    previous != Unresolved && previous != next
  }

  function IdentityOf(account: Option<Account>): Identity {
    if account.Some? then User(account.value.id) else SignedOut
  }

  function SetAccount(w: World, next: Option<Account>): World {
    w.(generation := if IdentityChanged(w.identity, IdentityOf(next)) then w.generation + 1 else w.generation,
       identity := IdentityOf(next),
       account := next)
  }

  function BeginCheck(w: World): World {
    w.(checkSeq := w.checkSeq + 1, pending := w.pending + {w.checkSeq + 1})
  }

  predicate Enabled(w: World, e: Event) {
    match e
    case Answer(number, _) => number in w.pending
    case RefreshSettled => w.inflight.Some? && w.inflight.value !in w.pending
    case _ => true
  }

  /** The event starts a new check. */
  predicate Begins(w: World, e: Event) { e.Begin? || (e.Refresh? && w.inflight.None?) }

  /** The answer is one to the latest check. */
  predicate Accepts(w: World, e: Event) { e.Answer? && e.number == w.checkSeq }

  /** A sign-out, or an expiry that is acted upon. */
  predicate EndsSession(w: World, e: Event) { e.Logout? || (e.Expired? && w.identity != SignedOut) }

  function Step(w: World, e: Event): World {
    match e
    case Begin => BeginCheck(w)
    case Refresh => if w.inflight.Some? then w else BeginCheck(w).(inflight := Some(w.checkSeq + 1))
    case Answer(number, reply) =>
      var x := w.(pending := w.pending - {number});
      if number != w.checkSeq then x
      else (match reply
            case Me(account) => SetAccount(x, Some(account))
            case Denied => SetAccount(x, None)
            case Failure => if w.identity == Unresolved then SetAccount(x, None) else x)
    case RefreshSettled => w.(inflight := None)
    case Logout => SetAccount(w.(checkSeq := w.checkSeq + 1), None)
    case Expired => if w.identity == SignedOut then w else SetAccount(w.(checkSeq := w.checkSeq + 1), None)
  }

  ghost predicate Run(ws: seq<World>, es: seq<Event>) {
    && |ws| == |es| + 1
    && ws[0] == START
    && forall i :: 0 <= i < |es| ==> Enabled(ws[i], es[i]) && ws[i + 1] == Step(ws[i], es[i])
  }

  ghost predicate Inv(w: World) {
    && (forall n :: n in w.pending ==> 1 <= n <= w.checkSeq)
    && (w.inflight.Some? ==> 1 <= w.inflight.value <= w.checkSeq)
    && (w.identity == Unresolved ==> w.account.None? && w.generation == 0)
    && (w.identity != Unresolved ==> w.identity == IdentityOf(w.account))
  }

  lemma {:induction false} RunInv(ws: seq<World>, es: seq<Event>, n: nat)
    requires Run(ws, es) && n < |ws|
    ensures Inv(ws[n])
  {
    if n > 0 { RunInv(ws, es, n - 1); }
  }

  lemma {:induction false} CheckSeqGrows(ws: seq<World>, es: seq<Event>, i: nat, j: nat)
    requires Run(ws, es) && i <= j < |ws|
    ensures ws[i].checkSeq <= ws[j].checkSeq
    decreases j - i
  {
    if i < j { CheckSeqGrows(ws, es, i, j - 1); }
  }

  /** A number once answered, or a number not above the counter and not pending,
      is never pending again. */
  lemma {:induction false} NeverPendingAgain(ws: seq<World>, es: seq<Event>, i: nat, j: nat, number: nat)
    requires Run(ws, es) && i <= j < |ws| && number <= ws[i].checkSeq && number !in ws[i].pending
    ensures number !in ws[j].pending
    decreases j - i
  {
    if i < j {
      NeverPendingAgain(ws, es, i, j - 1, number);
      CheckSeqGrows(ws, es, i, j - 1);
    }
  }

  // ------------------------------------------------------------------ main results

  /** Accepted check numbers strictly increase. */
  lemma {:induction false} AcceptedIncrease(ws: seq<World>, es: seq<Event>, i: nat, j: nat)
    requires Run(ws, es) && i < j < |es| && Accepts(ws[i], es[i]) && Accepts(ws[j], es[j])
    ensures es[i].number < es[j].number
  {
    CheckSeqGrows(ws, es, i, j);
    NeverPendingAgain(ws, es, i + 1, j, es[i].number);
  }

  /** The answer to a check that began before a sign-out or a handled expiry
      changes nothing the tab shows when it arrives afterwards. */
  lemma {:induction false} StaleAnswersChangeNothing(ws: seq<World>, es: seq<Event>, i: nat, j: nat, m: nat)
    requires Run(ws, es) && i < j < m < |es|
    requires Begins(ws[i], es[i]) && EndsSession(ws[j], es[j])
    requires es[m].Answer? && es[m].number == ws[i + 1].checkSeq
    ensures ws[m + 1] == ws[m].(pending := ws[m].pending - {es[m].number})
  {
    CheckSeqGrows(ws, es, i + 1, j);
    CheckSeqGrows(ws, es, j + 1, m);
  }

  /** Once signed out, the tab shows nobody until the answer to a check that
      began after the sign-out. */
  lemma {:induction false} SignedOutUntilNewCheck(ws: seq<World>, es: seq<Event>, j: nat, m: nat)
      returns (b: nat, a: nat)
    requires Run(ws, es) && j < m < |ws| && EndsSession(ws[j], es[j]) && ws[m].identity != SignedOut
    ensures j < b < a < m && Begins(ws[b], es[b])
    ensures Accepts(ws[a], es[a]) && es[a].reply.Me? && es[a].number == ws[b + 1].checkSeq
  {
    if ws[m - 1].identity != SignedOut && m - 1 > j {
      b, a := SignedOutUntilNewCheck(ws, es, j, m - 1);
    } else {
      a := m - 1;
      RunInv(ws, es, a);
      b := BeganAt(ws, es, a, es[a].number);
      if b <= j {
        CheckSeqGrows(ws, es, b + 1, j);
        CheckSeqGrows(ws, es, j + 1, a);
        assert false;
      }
    }
  }

  lemma {:induction false} BeganAt(ws: seq<World>, es: seq<Event>, n: nat, number: nat) returns (b: nat)
    requires Run(ws, es) && n < |ws| && number in ws[n].pending
    ensures b < n && Begins(ws[b], es[b]) && ws[b + 1].checkSeq == number
  {
    if number in ws[n - 1].pending { b := BeganAt(ws, es, n - 1, number); } else { b := n - 1; }
  }

  /** A resolved identity changes only through a sign-out, a handled expiry, or
      the server's own word on who is signed in; in particular a check that
      merely fails never signs anybody out. */
  lemma {:induction false} OnlyTheServerChangesIdentity(ws: seq<World>, es: seq<Event>, i: nat, j: nat)
    requires Run(ws, es) && i <= j < |ws| && ws[i].identity != Unresolved
    requires forall m :: i <= m < j ==> !EndsSession(ws[m], es[m]) && !(Accepts(ws[m], es[m]) && !es[m].reply.Failure?)
    ensures ws[j].identity == ws[i].identity && ws[j].account == ws[i].account && ws[j].generation == ws[i].generation
    decreases j - i
  {
    if i < j { OnlyTheServerChangesIdentity(ws, es, i, j - 1); }
  }

  /** The number of changes from one resolved identity to another one. */
  ghost function Changes(ws: seq<World>, n: nat): nat
    requires n < |ws|
  {
    if n == 0 then 0
    else Changes(ws, n - 1)
         + (if ws[n - 1].identity != Unresolved && ws[n].identity != ws[n - 1].identity then 1 else 0)
  }

  /** `generation`, which restarts the page's components and comes with wiping
      every cache, counts exactly those changes. */
  lemma {:induction false} GenerationCountsChanges(ws: seq<World>, es: seq<Event>, n: nat)
    requires Run(ws, es) && n < |ws|
    ensures ws[n].generation == Changes(ws, n)
  {
    if n > 0 { GenerationCountsChanges(ws, es, n - 1); }
  }

  /** The last word on who is signed in among the first `n` events: a sign-out,
      a handled expiry, or the server's answer to the check that was then the
      latest one. */
  ghost function LastWord(ws: seq<World>, es: seq<Event>, n: nat): Option<Account>
    requires |ws| == |es| + 1 && n <= |es|
  {
    if n == 0 || EndsSession(ws[n - 1], es[n - 1]) then None
    else if Accepts(ws[n - 1], es[n - 1]) && es[n - 1].reply.Me? then Some(es[n - 1].reply.account)
    else if Accepts(ws[n - 1], es[n - 1]) && es[n - 1].reply.Denied? then None
    else LastWord(ws, es, n - 1)
  }

  /** The account shown is that of the last word, and nobody's before any. */
  lemma {:induction false} ShownIsLastWord(ws: seq<World>, es: seq<Event>, n: nat)
    requires Run(ws, es) && n < |ws|
    ensures ws[n].account == LastWord(ws, es, n)
    ensures ws[n].identity != Unresolved ==> ws[n].identity == IdentityOf(LastWord(ws, es, n))
  {
    RunInv(ws, es, n);
    if n > 0 {
      RunInv(ws, es, n - 1);
      ShownIsLastWord(ws, es, n - 1);
    }
  }

  // -------------------------------------------------------------------- the object

  class AuthProvider {
    var checkSeq: nat
    var identity: Identity
    var account: Option<Account>
    var generation: nat
    var inflight: Option<nat>
    ghost var pending: set<nat>

    ghost function View(): World
      reads this
    {
      World(checkSeq, identity, account, generation, inflight, pending)
    }

    constructor ()
      ensures View() == START
    {
      checkSeq, identity, account, generation, inflight, pending := 0, Unresolved, None, 0, None, {};
    }

    method SetAccountState(next: Option<Account>)
      modifies this`generation, this`identity, this`account
      ensures View() == SetAccount(old(View()), next)
    {
      var nextId := if next.Some? then User(next.value.id) else SignedOut;
      if identity != Unresolved && identity != nextId { generation := generation + 1; }
      identity := nextId;
      account := next;
    }

    /** The part of `checkSession` up to its `await`. */
    method CheckSession() returns (number: nat)
      modifies this`checkSeq, this`pending
      ensures View() == Step(old(View()), Begin) && number == checkSeq
    {
      checkSeq := checkSeq + 1;
      pending := pending + {checkSeq};
      return checkSeq;
    }

    /** The part of `checkSession` after its `await`. */
    method OnAnswer(number: nat, reply: Reply)
      requires number in pending
      modifies this
      ensures View() == Step(old(View()), Answer(number, reply))
    {
      pending := pending - {number};
      match reply {
        case Me(me) =>
          if number == checkSeq { SetAccountState(Some(me)); }
        case _ =>
          if number != checkSeq { return; }
          var signedOut := reply.Denied?;
          if signedOut || identity == Unresolved { SetAccountState(None); }
      }
    }

    method OnRefresh()
      modifies this
      ensures View() == Step(old(View()), Refresh)
    {
      if inflight.None? {
        var number := CheckSession();
        inflight := Some(number);
      }
    }

    method OnRefreshSettled()
      modifies this`inflight
      ensures View() == Step(old(View()), RefreshSettled)
    {
      inflight := None;
    }

    method OnLoggedOut()
      modifies this
      ensures View() == Step(old(View()), Logout)
    {
      checkSeq := checkSeq + 1;
      SetAccountState(None);
    }

    method HandleExpired()
      modifies this
      ensures View() == Step(old(View()), Expired)
    {
      if identity == SignedOut { return; }
      checkSeq := checkSeq + 1;
      SetAccountState(None);
    }
  }
}
