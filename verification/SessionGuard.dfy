/** The cross-tab session guard: the browser half (frontend/lib/session-guard.ts),
    the tags (frontend/lib/bff-session-tag.ts) and their use in the BFF route
    (frontend/app/api/[...path]/route.ts).

    Digests of different subjects are taken to differ, and a digest is never the
    word that stands for nobody. */
module SessionGuard {
  import opened Options

  type Subject = string

  datatype Tag = Anonymous | Digest(subject: Subject)

  /** An access token; `subject` is `None` when its `sub` claim (section 4.1.2 of
      RFC 7519) cannot be read. */
  datatype Access = Access(subject: Option<Subject>)

  /** The cookies every tab shares; a refresh token belongs to an account. */
  datatype Jar = Jar(access: Option<Access>, refresh: Option<Subject>)

  function SessionTag(access: Option<Access>, hasRefreshCookie: bool): Option<Tag> {
    if access.None? then (if hasRefreshCookie then None else Some(Anonymous))
    else if access.value.subject.None? then None
    else Some(Digest(access.value.subject.value))
  }

  function TagOf(jar: Jar): Option<Tag> { SessionTag(jar.access, jar.refresh.Some?) }

  predicate SessionMismatch(expected: Option<Tag>, actual: Option<Tag>) {
    expected.Some? && actual.Some? && expected.value != actual.value
  }

  // --------------------------------------------------------- identity routes

  function BeforeQuery(path: string): string {
    if path == "" || path[0] == '?' then "" else [path[0]] + BeforeQuery(path[1..])
  }

  /** `route` of the browser half: no query, no leading `/api` before a slash. */
  function Route(path: string): string {
    var p := BeforeQuery(path);
    if "/api/" <= p then p[4..] else p
  }

  predicate LearnsSessionTag(path: string) {
    var r := Route(path);
    r == "/me" || "/auth/" <= r
  }

  /** The BFF's own test, on the decoded path behind `/api/`. */
  predicate Exempt(path: string) { path == "me" || "auth/" <= path }

  lemma {:induction false} BeforeQueryOf(p: string, query: string)
    requires '?' !in p && (query == "" || query[0] == '?')
    ensures BeforeQuery(p + query) == p
  {
    if p != "" {
      assert (p + query)[1..] == p[1..] + query;
      BeforeQueryOf(p[1..], query);
    } else {
      assert p + query == query;
    }
  }

  lemma {:induction false} RouteOf(p: string, query: string)
    requires '?' !in p && (query == "" || query[0] == '?')
    ensures Route("/api/" + p + query) == "/" + p
    ensures Route("/" + p + query) == "/" + (if "api/" <= p then p[4..] else p)
  {
    BeforeQueryOf("/api/" + p, query);
    BeforeQueryOf("/" + p, query);
    assert ("/api/" + p)[4..] == "/" + p;
    PrefixBehindSlash("api/", p);
    assert "/" + "api/" == "/api/";
    if "api/" <= p { CutApi(p, p[4..]); }
  }

  lemma {:induction false} CutApi(p: string, rest: string)
    requires "api/" <= p && rest == p[4..]
    ensures ("/" + p)[4..] == "/" + rest
  {
    assert p == "api/" + rest;
    assert "/" + p == "/api" + ("/" + rest);
  }

  lemma {:induction false} BehindSlash(p: string)
    ensures "/" + p == "/me" || "/auth/" <= "/" + p <==> Exempt(p)
  {
    PrefixBehindSlash("auth/", p);
    assert "/" + "auth/" == "/auth/";
    if "/" + p == "/me" { assert p == ("/" + p)[1..] == "/me"[1..]; }
  }

  lemma {:induction false} PrefixBehindSlash(prefix: string, p: string)
    ensures "/" + prefix <= "/" + p <==> prefix <= p
  {
    if "/" + prefix <= "/" + p {
      assert prefix == ("/" + prefix)[1..] && p == ("/" + p)[1..];
      assert ("/" + p)[..|prefix| + 1] == "/" + prefix;
      assert p[..|prefix|] == ("/" + p)[..|prefix| + 1][1..];
    }
  }

  /** The two halves agree on which routes carry the identity: always for a full
      `/api/...` URL, and for a path relative to `/api` up to one more `api/`
      in front, which only the browser half removes. */
  lemma {:induction false} RoutesAgree(p: string, query: string)
    requires '?' !in p && (query == "" || query[0] == '?')
    ensures LearnsSessionTag("/api/" + p + query) <==> Exempt(p)
    ensures LearnsSessionTag("/" + p + query) <==> Exempt(if "api/" <= p then p[4..] else p)
  {
    RouteOf(p, query);
    BehindSlash(p);
    BehindSlash(if "api/" <= p then p[4..] else p);
  }

  // ------------------------------------------------------------- the protocol

  /** What a response does to the cookies: `Issue` carries a pair of tokens of one
      account, from a sign-in or a rotation. */
  datatype Effect = Keep | Issue(access: Access, subject: Subject) | Clear

  function Apply(jar: Jar, e: Effect): Jar {
    match e
    case Keep => jar
    case Issue(access, subject) => Jar(Some(access), Some(subject))
    case Clear => Jar(None, None)
  }

  /** The tag the BFF labels a response with. */
  function Label(jar: Jar, e: Effect): Option<Tag> {
    match e
    case Keep => TagOf(jar)
    case Issue(access, _) => SessionTag(Some(access), false)
    case Clear => Some(Anonymous)
  }

  /** A call is prepared by the page, sent with the cookies of that moment, and
      answered. `path` is the part behind `/api/`. */
  datatype Call =
    | Prepared(tab: nat, path: string, expected: Option<Tag>)
    | Sent(tab: nat, path: string, expected: Option<Tag>, jar: Jar)
    | Answered(tab: nat, path: string, tagLabel: Option<Tag>)

  datatype Event =
    | Load(tab: nat)
    | Prepare(tab: nat, call: nat, path: string)
    | Dispatch(call: nat)
    | Respond(call: nat, effect: Effect)  // the browser stores the cookies
    | Observe(call: nat)                  // the page reads the response
    | AccessExpires
    | RefreshExpires

  datatype World = World(jar: Jar, learned: map<nat, Tag>, calls: map<nat, Call>)

  function Learned(w: World, tab: nat): Option<Tag> {
    if tab in w.learned then Some(w.learned[tab]) else None
  }

  function WithLearned(w: World, tab: nat, tag: Option<Tag>): World {
    w.(learned := if tag.Some? then w.learned[tab := tag.value] else w.learned - {tab})
  }

  /** What `sessionGuardHeaders` must send with a call. */
  function Header(w: World, tab: nat, path: string): Option<Tag> {
    if LearnsSessionTag("/api/" + path) then None else Learned(w, tab)
  }

  predicate Accepted(c: Call)
    requires c.Sent?
  {
    Exempt(c.path) || !SessionMismatch(c.expected, TagOf(c.jar))
  }

  /** The routes that can sign an account in; any other issues cookies only when
      it has rotated the refresh cookie its call was sent with. */
  const SIGN_IN_PATHS: seq<string> := [
    "auth/login", "auth/admin/login", "auth/login/2fa", "auth/register", "auth/verify-email",
    "auth/signup-handoff/claim"]

  predicate SignsIn(path: string) { path in SIGN_IN_PATHS }

  predicate MayAnswer(c: Call, effect: Effect)
    requires c.Sent?
  {
    && (!Accepted(c) ==> effect == Keep)
    && (effect.Issue? && effect.access.subject.Some? ==> effect.access.subject.value == effect.subject)
    && (!SignsIn(c.path) && effect.Issue? ==> c.jar.refresh == Some(effect.subject))
  }

  predicate Enabled(w: World, e: Event) {
    match e
    case Prepare(_, call, path) => call !in w.calls && '?' !in path
    case Dispatch(call) => call in w.calls && w.calls[call].Prepared?
    case Respond(call, effect) =>
      call in w.calls && w.calls[call].Sent? && MayAnswer(w.calls[call], effect)
    case Observe(call) => call in w.calls && w.calls[call].Answered?
    case _ => true
  }

  function Step(w: World, e: Event): World
    requires Enabled(w, e)
  {
    match e
    case Load(tab) => WithLearned(w, tab, None)
    case Prepare(tab, call, path) => w.(calls := w.calls[call := Prepared(tab, path, Header(w, tab, path))])
    case Dispatch(call) =>
      var c := w.calls[call];
      w.(calls := w.calls[call := Sent(c.tab, c.path, c.expected, w.jar)])
    case Respond(call, effect) =>
      var c := w.calls[call];
      w.(jar := Apply(w.jar, effect), calls := w.calls[call := Answered(c.tab, c.path, Label(c.jar, effect))])
    case Observe(call) =>
      var c := w.calls[call];
      if LearnsSessionTag("/api/" + c.path) then WithLearned(w, c.tab, c.tagLabel) else w
    case AccessExpires => w.(jar := w.jar.(access := None))
    case RefreshExpires => w.(jar := w.jar.(refresh := None))
  }

  ghost predicate Run(ws: seq<World>, es: seq<Event>) {
    && |ws| == |es| + 1
    && ws[0] == World(Jar(None, None), map[], map[])
    && forall i :: 0 <= i < |es| ==> Enabled(ws[i], es[i]) && ws[i + 1] == Step(ws[i], es[i])
  }

  /** Both cookies of a jar are of one account. */
  predicate OneAccount(jar: Jar) {
    jar.access.Some? && jar.access.value.subject.Some? && jar.refresh.Some? ==>
      jar.access.value.subject.value == jar.refresh.value
  }

  lemma {:induction false} JarsAreOneAccount(ws: seq<World>, es: seq<Event>, n: nat)
    requires Run(ws, es) && n < |ws|
    ensures OneAccount(ws[n].jar)
  {
    if n > 0 { JarsAreOneAccount(ws, es, n - 1); }
  }

  /** As whom the upstream request runs: with the access cookie, or, once that was
      answered 401 and there is a refresh cookie, with the rotated token. */
  datatype Principal = Nobody | Account(subject: Subject)

  function RunsAs(jar: Jar, retried: bool): Principal
    requires retried ==> jar.refresh.Some?
  {
    if retried then Account(jar.refresh.value)
    else if jar.access.Some? && jar.access.value.subject.Some? then Account(jar.access.value.subject.value)
    else Nobody
  }

  function PrincipalTag(p: Principal): Tag { if p.Nobody? then Anonymous else Digest(p.subject) }

  /** Every way the request can run is as the holder of the tag. */
  predicate AlwaysRunsAs(jar: Jar, tag: Tag) {
    && PrincipalTag(RunsAs(jar, false)) == tag
    && (jar.refresh.Some? ==> PrincipalTag(RunsAs(jar, true)) == tag)
  }

  // --------------------------------------------------------------------- safety

  lemma {:induction false} PreparedOrigin(ws: seq<World>, es: seq<Event>, n: nat, call: nat) returns (q: nat)
    requires Run(ws, es) && n < |ws| && call in ws[n].calls && ws[n].calls[call].Prepared?
    ensures var c := ws[n].calls[call];
      && q < n && es[q] == Prepare(c.tab, call, c.path)
      && c.expected == Header(ws[q], c.tab, c.path) && '?' !in c.path
  {
    if es[n - 1].Prepare? && es[n - 1].call == call {
      q := n - 1;
    } else {
      assert ws[n - 1].calls[call] == ws[n].calls[call];
      q := PreparedOrigin(ws, es, n - 1, call);
    }
  }

  /** A guarded call carrying a tag is accepted, under a cookie whose tag is
      known, only if it can run as nobody but the identity the tab had learned
      when it prepared the call; so also after a rotation and a retry. */
  lemma {:induction false} AcceptedRunsAsLearned(ws: seq<World>, es: seq<Event>, n: nat) returns (q: nat)
    requires Run(ws, es) && n < |es| && es[n].Dispatch?
    requires var c := ws[n + 1].calls[es[n].call];
      !Exempt(c.path) && c.expected.Some? && TagOf(c.jar).Some? && Accepted(c)
    ensures var c := ws[n + 1].calls[es[n].call];
      && q < n && es[q] == Prepare(c.tab, es[n].call, c.path)
      && Learned(ws[q], c.tab) == c.expected
      && AlwaysRunsAs(c.jar, c.expected.value)
  {
    q := PreparedOrigin(ws, es, n, es[n].call);
    JarsAreOneAccount(ws, es, n);
    RoutesAgree(ws[n].calls[es[n].call].path, "");
    assert "/api/" + es[q].path + "" == "/api/" + es[q].path;
  }

  /** Without a known tag the check is skipped, and then the call surely runs as
      expected only when nobody was expected and no refresh cookie could turn it
      into somebody's. */
  lemma {:induction false} RunsAsExpectedExactlyWhen(c: Call)
    requires c.Sent? && !Exempt(c.path) && c.expected.Some? && Accepted(c) && OneAccount(c.jar)
    ensures AlwaysRunsAs(c.jar, c.expected.value) <==>
      TagOf(c.jar).Some? || (c.expected == Some(Anonymous) && c.jar.refresh.None?)
  {
  }

  /** A run goes on with any event that is enabled. */
  lemma {:induction false} RunBy(ws: seq<World>, es: seq<Event>, e: Event)
    returns (more: seq<World>, events: seq<Event>)
    requires Run(ws, es) && Enabled(ws[|es|], e)
    ensures events == es + [e] && |more| == |ws| + 1 && Run(more, events)
    ensures more[..|ws|] == ws && more[|ws|] == Step(ws[|es|], e)
  {
    more, events := ws + [Step(ws[|es|], e)], es + [e];
    forall i | 0 <= i < |events| ensures Enabled(more[i], events[i]) && more[i + 1] == Step(more[i], events[i]) {
      assert i < |es| ==> Enabled(ws[i], es[i]) && more[i + 1] == ws[i + 1];
    }
  }

  /** The requests of a sign-in by a tab: prepared, sent, answered with the
      cookies of `subject`, read. */
  function SignIn(tab: nat, call: nat, subject: Subject): seq<Event> {
    [Prepare(tab, call, "auth/login"), Dispatch(call), Respond(call, Fresh(subject)), Observe(call)]
  }

  /** A pair of tokens of the account. */
  function Fresh(subject: Subject): Effect { Issue(Access(Some(subject)), subject) }

  function FreshJar(subject: Subject): Jar { Jar(Some(Access(Some(subject))), Some(subject)) }

  lemma {:induction false} SignInRuns(ws: seq<World>, es: seq<Event>, tab: nat, call: nat, subject: Subject)
    returns (more: seq<World>, events: seq<Event>)
    requires Run(ws, es) && call !in ws[|es|].calls
    ensures events == es + SignIn(tab, call, subject) && Run(more, events) && |more| == |ws| + 4
    ensures more[..|ws|] == ws
    ensures var w, x := ws[|es|], more[|events|];
      && x.jar == FreshJar(subject) && x.learned == w.learned[tab := Digest(subject)]
      && x.calls == w.calls[call := Answered(tab, "auth/login", Some(Digest(subject)))]
  {
    LoginIsOpen();
    more, events := RunBy(ws, es, Prepare(tab, call, "auth/login"));
    var sent, early := RunBy(more, events, Dispatch(call));
    assert sent[..|ws|] == ws;
    more, events := RunBy(sent, early, Respond(call, Fresh(subject)));
    more, events := RunBy(more, events, Observe(call));
    assert more[..|ws|] == sent[..|ws|];
  }

  lemma {:induction false} LoginIsOpen()
    ensures var path := "auth/login"; SignsIn(path) && Exempt(path) && '?' !in path && LearnsSessionTag("/api/" + path)
  {
    RoutesAgree("auth/login", "");
    assert "/api/" + "auth/login" + "" == "/api/" + "auth/login";
    assert SIGN_IN_PATHS[0] == "auth/login";
  }

  lemma {:induction false} EmptyRun() returns (ws: seq<World>, es: seq<Event>)
    ensures ws == [World(Jar(None, None), map[], map[])] && es == [] && Run(ws, es)
  {
    ws, es := [World(Jar(None, None), map[], map[])], [];
  }

  /** The gap is reached: one tab signs in as `a`, another as `b`, the access
      cookie expires, and a guarded call of the first tab is accepted although
      after its rotation it runs as `b`. */
  lemma {:induction false} UnknownTagRunsAsAnother(a: Subject, b: Subject) returns (ws: seq<World>, es: seq<Event>)
    requires a != b
    ensures Run(ws, es) && |es| == 11 && es[10] == Dispatch(2) && 2 in ws[11].calls
    ensures var c := ws[11].calls[2];
      && c.Sent? && !Exempt(c.path) && c.expected == Some(Digest(a)) && Accepted(c)
      && c.jar.refresh.Some? && RunsAs(c.jar, true) == Account(b)
  {
    OrdersAreGuarded();
    ws, es := EmptyRun();
    ws, es := SignInRuns(ws, es, 1, 0, a);
    ws, es := SignInRuns(ws, es, 2, 1, b);
    ws, es := RunBy(ws, es, AccessExpires);
    ws, es := RunBy(ws, es, Prepare(1, 2, "orders"));
    ws, es := RunBy(ws, es, Dispatch(2));
  }

  lemma {:induction false} OrdersAreGuarded()
    ensures !Exempt("orders") && !SignsIn("orders") && !LearnsSessionTag("/api/" + "orders") && '?' !in "orders"
  {
    RoutesAgree("orders", "");
    assert "/api/" + "orders" + "" == "/api/" + "orders";
    assert "orders"[0] == 'o' && "me"[0] == 'm' && "auth/"[0] == 'a';
    forall i | 0 <= i < |SIGN_IN_PATHS| ensures SIGN_IN_PATHS[i] != "orders" {
      assert SIGN_IN_PATHS[i][0] == 'a';
    }
  }

  // ------------------------------------------------- whose cookies the jar holds

  function Owner(jar: Jar): Option<Subject> {
    if jar.refresh.Some? then jar.refresh else if jar.access.Some? then jar.access.value.subject else None
  }

  lemma {:induction false} SentFrom(ws: seq<World>, es: seq<Event>, n: nat, call: nat) returns (d: nat)
    requires Run(ws, es) && n < |ws| && call in ws[n].calls && ws[n].calls[call].Sent?
    ensures d < n && es[d] == Dispatch(call) && ws[n].calls[call].jar == ws[d].jar
  {
    if es[n - 1] == Dispatch(call) {
      d := n - 1;
    } else {
      assert ws[n - 1].calls[call] == ws[n].calls[call];
      d := SentFrom(ws, es, n - 1, call);
    }
  }

  /** Whoever's cookies the browser holds, that account has come in by an answer of
      one of the routes that sign in: no other answer, however late, and no expiry
      brings in an account that was not there before. */
  lemma {:induction false} OwnerHasSignedIn(ws: seq<World>, es: seq<Event>, n: nat) returns (p: nat)
    requires Run(ws, es) && n < |ws| && Owner(ws[n].jar).Some?
    ensures p < n && es[p].Respond? && es[p].effect.Issue? && es[p].effect.subject == Owner(ws[n].jar).value
    ensures SignsIn(ws[p].calls[es[p].call].path)
    decreases n
  {
    var w, e := ws[n - 1], es[n - 1];
    assert Enabled(w, e) && ws[n] == Step(w, e);
    if e.Respond? && e.effect.Issue? {
      if SignsIn(w.calls[e.call].path) {
        p := n - 1;
      } else {
        var d := SentFrom(ws, es, n - 1, e.call);
        p := OwnerHasSignedIn(ws, es, d);
      }
    } else {
      JarsAreOneAccount(ws, es, n - 1);
      OwnerStays(w, e);
      p := OwnerHasSignedIn(ws, es, n - 1);
    }
  }

  lemma {:induction false} OwnerStays(w: World, e: Event)
    requires Enabled(w, e) && OneAccount(w.jar) && !(e.Respond? && e.effect.Issue?)
    requires Owner(Step(w, e).jar).Some?
    ensures Owner(w.jar) == Owner(Step(w, e).jar)
  {
  }

  /** An answer of any other route leaves the account in the jar as it is exactly
      when it sets no cookies, when it rotates and the jar is again, or still, of
      the account it was of when the call was sent (at `d`), or when it clears a
      jar of nobody. */
  lemma {:induction false} AnswerKeepsOwnerExactlyWhen(ws: seq<World>, es: seq<Event>, n: nat) returns (d: nat)
    requires Run(ws, es) && n < |es| && es[n].Respond? && !SignsIn(ws[n].calls[es[n].call].path)
    ensures d < n && es[d] == Dispatch(es[n].call)
    ensures es[n].effect.Issue? ==> Owner(ws[d].jar) == Some(es[n].effect.subject) == Owner(ws[n + 1].jar)
    ensures Owner(ws[n + 1].jar) == Owner(ws[n].jar) <==>
      match es[n].effect
      case Keep => true
      case Issue(_, _) => Owner(ws[n].jar) == Owner(ws[d].jar)
      case Clear => Owner(ws[n].jar).None?
  {
    d := SentFrom(ws, es, n, es[n].call);
  }

  /** The account can change back that way: a guarded call of a tab of `a` is sent,
      another tab signs in as `b`, and the answer of the first call, which had to
      rotate, puts the cookies of `a` back under the tab that shows `b`. */
  lemma {:induction false} LateRotationBringsBack(a: Subject, b: Subject) returns (ws: seq<World>, es: seq<Event>)
    requires a != b
    ensures Run(ws, es) && |es| == 11 && es[5] == Dispatch(2) && es[10] == Respond(2, Fresh(a))
    ensures 2 in ws[6].calls && ws[6].calls[2].Sent? && !Exempt(ws[6].calls[2].path) && Accepted(ws[6].calls[2])
    ensures Owner(ws[10].jar) == Some(b) && Learned(ws[11], 2) == Some(Digest(b))
    ensures Owner(ws[11].jar) == Some(a) && TagOf(ws[11].jar) == Some(Digest(a))
  {
    OrdersAreGuarded();
    ws, es := EmptyRun();
    ws, es := SignInRuns(ws, es, 1, 0, a);
    ws, es := RunBy(ws, es, Prepare(1, 2, "orders"));
    ws, es := RunBy(ws, es, Dispatch(2));
    ws, es := SignInRuns(ws, es, 2, 1, b);
    ws, es := RunBy(ws, es, Respond(2, Fresh(a)));
  }

  // ------------------------------------------------------------------- recovery

  /** The label of a response is the tag of the cookies it leaves behind. */
  lemma {:induction false} LabelIsTagAfter(jar: Jar, e: Effect)
    ensures Label(jar, e) == TagOf(Apply(jar, e))
  {
  }

  function Stage(w: World, call: nat): nat {
    if call !in w.calls then 0
    else match w.calls[call] case Prepared(_, _, _) => 1 case Sent(_, _, _, _) => 2 case Answered(_, _, _) => 3
  }

  /** A call only moves forward, and is unchanged while it stays at a stage. */
  lemma {:induction false} CallMovesForward(ws: seq<World>, es: seq<Event>, i: nat, j: nat, call: nat)
    requires Run(ws, es) && i <= j < |ws|
    ensures Stage(ws[i], call) <= Stage(ws[j], call)
    ensures call in ws[i].calls && Stage(ws[i], call) == Stage(ws[j], call) ==> ws[i].calls[call] == ws[j].calls[call]
    decreases j - i
  {
    if i < j {
      CallMovesForward(ws, es, i, j - 1, call);
      assert Enabled(ws[j - 1], es[j - 1]) && ws[j] == Step(ws[j - 1], es[j - 1]);
    }
  }

  /** The event may change what the tab has learned. */
  predicate Teaches(w: World, e: Event, tab: nat)
    requires Enabled(w, e)
  {
    (e.Load? && e.tab == tab) || (e.Observe? && w.calls[e.call].tab == tab)
  }

  lemma {:induction false} LearnedStays(ws: seq<World>, es: seq<Event>, i: nat, j: nat, tab: nat)
    requires Run(ws, es) && i <= j < |ws|
    requires forall k :: i <= k < j ==> !Teaches(ws[k], es[k], tab)
    ensures Learned(ws[j], tab) == Learned(ws[i], tab)
    decreases j - i
  {
    if i < j {
      LearnedStays(ws, es, i, j - 1, tab);
      assert Enabled(ws[j - 1], es[j - 1]) && ws[j] == Step(ws[j - 1], es[j - 1]);
    }
  }

  /** One `/me` answer repairs a tab whatever it believed before: identity routes
      are never refused, and unless the cookies change otherwise the next call
      the tab prepares is accepted. (`me` is sent at `d`, answered at `r`, read
      at `o`; the next call is prepared at `q` and sent at `s`.) */
  lemma {:induction false} OneMeAnswerRecovers(
      ws: seq<World>, es: seq<Event>, d: nat, r: nat, o: nat, q: nat, s: nat, me: nat, next: nat, tab: nat)
    requires Run(ws, es) && d < r < o < q < s < |es|
    requires es[d] == Dispatch(me) && ws[d].calls[me].path == "me" && ws[d].calls[me].tab == tab
    requires es[r].Respond? && es[r].call == me && es[o] == Observe(me)
    requires es[q].Prepare? && es[q].tab == tab && es[q].call == next && es[s] == Dispatch(next)
    requires ws[r].jar == ws[d].jar && ws[s].jar == ws[r + 1].jar
    requires forall k :: o < k < q ==> !Teaches(ws[k], es[k], tab)
    ensures Accepted(ws[d + 1].calls[me])
    ensures Accepted(ws[s + 1].calls[next])
  {
    CallMovesForward(ws, es, d + 1, r, me);
    CallMovesForward(ws, es, r + 1, o, me);
    RoutesAgree("me", "");
    assert "/api/" + "me" + "" == "/api/" + "me";
    LabelIsTagAfter(ws[d].jar, es[r].effect);
    assert Learned(ws[o + 1], tab) == TagOf(ws[r + 1].jar);
    LearnedStays(ws, es, o + 1, q, tab);
    CallMovesForward(ws, es, q + 1, s, next);
    assert ws[s].calls[next].expected == Header(ws[q], tab, es[q].path);
  }

  // ----------------------------------------------------------------- the tab half

  class TabGuard {
    ghost const tab: nat
    var renderedSessionTag: Option<Tag>

    /** The module variable holds what the protocol says the tab has learned. */
    ghost predicate Shows(w: World)
      reads this
    {
      renderedSessionTag == Learned(w, tab)
    }

    constructor (ghost tab: nat)
      ensures this.tab == tab && renderedSessionTag == None
      ensures forall w: World :: Shows(Step(w, Load(tab)))
    {
      this.tab := tab;
      renderedSessionTag := None;
    }

    function GuardHeaders(path: string): (r: Option<Tag>)
      reads this
      ensures r.Some? ==> !LearnsSessionTag(path) && r == renderedSessionTag
      ensures r.None? ==> LearnsSessionTag(path) || renderedSessionTag.None?
    {
      if renderedSessionTag.None? || LearnsSessionTag(path) then None else renderedSessionTag
    }

    /** The header sent is the one the protocol's call carries. */
    lemma {:induction false} HeadersArePrepared(w: World, call: nat, path: string)
      requires Shows(w) && Enabled(w, Prepare(tab, call, path))
      ensures Step(w, Prepare(tab, call, path)).calls[call] == Prepared(tab, path, GuardHeaders("/api/" + path))
    {
    }

    /** `refused` is a 409 whose `error_code` is SESSION_CHANGED. */
    method ObserveResponse(path: string, tagLabel: Option<Tag>, refused: bool) returns (sessionChanged: bool)
      modifies this
      ensures renderedSessionTag == if LearnsSessionTag(path) then tagLabel else old(renderedSessionTag)
      ensures forall w: World, call: nat :: old(Shows(w)) && Answers(w, call, path, tagLabel) ==>
        Shows(Step(w, Observe(call)))
      ensures sessionChanged == refused
    {
      if LearnsSessionTag(path) { renderedSessionTag := tagLabel; }
      sessionChanged := refused;
    }

    /** The call is one of this tab, and this is its response. */
    ghost predicate Answers(w: World, call: nat, path: string, tagLabel: Option<Tag>) {
      call in w.calls && w.calls[call].Answered? && w.calls[call].tab == tab
      && "/api/" + w.calls[call].path == path && w.calls[call].tagLabel == tagLabel
    }

    /** Everything else that happens leaves the tab showing what it has learned. */
    lemma {:induction false} OthersTeachNothing(w: World, e: Event)
      requires Shows(w) && Enabled(w, e) && !Teaches(w, e, tab)
      ensures Shows(Step(w, e))
    {
    }
  }
}
