# Marketplace front end: verified models

Dafny models of the protocols and algorithms at the core of the marketplace's
browser code and of its back end for front end (BFF), with proofs of what they
promise. `dafny verify dfyconfig.toml` checks the whole project.

Code that changes state is a class or a method with loops, proved against a
specification; the main results are then lemmas about that specification, over
every run of it. JavaScript runs a function without interruption between two
suspended `await`s, so one event of a run is one such stretch, and a run is any
interleaving of them.

| file | subject | main results |
|---|---|---|
| `RefreshCoalescer.dfy` | one refresh-token rotation for all callers; the back end takes a second use for theft, as section 4.14.2 of RFC 9700 describes | rotations of a token never overlap; inside the grace time its outcome is replayed if and only if few enough others succeeded since |
| `LookupThrottle.dfy`, `TtlCache.dfy` | the guard of the paid lookup tools | at most twice the limit in any window length, refused only when used up; the cache answers what its history determines |
| `RedirectCache.dfy` | the map of renamed categories | one load at a time, spaced, always the last successful map |
| `AuthSession.dfy` | who a tab shows as signed in | no outdated answer is shown; no failure signs anybody out |
| `SessionGuard.dfy` | tabs that share one cookie | an accepted call runs as the identity its tab had learned; the account of the cookies has come in by a sign-in |
| `DisputeCase.dfy`, `DisputeRun.dfy` | disputes, remedies and warranty chains | chains of at most two replacements; conservation of claims; where two claim rules differ |
| `DisputeBatches.dfy` | large dispute selections in several requests | every id once, pairs together, one note |
| `FacebookLookup.dfy`, `FacebookRoundTrip.dfy`, `FacebookSite.dfy` | the target normaliser of the id finder | among addresses without escapes, short forms lead back but for one family of user names and one of links; only the site is looked up |
| `FaqText.dfy`, `ProxyDelivery.dfy`, `DproxyPlan.dfy` | texts and tables written and read back | round trips, each with the exact condition under which it holds |
| `PricingDisplay.dfy`, `Stock.dfy`, `StructuredData.dfy` | the "from" price, stock states and JSON-LD offers | the closed form is the minimum; exactly when page and markup agree |
| `Options.dfy`, `ExpiringMap.dfy`, `JsCollections.dfy`, `JsText.dfy` | missing values, insertion-ordered maps, array and string idioms | |

## Where the code does not meet its promise

- A `rotate` that throws before it returns a promise leaves its token in flight
  for ever (`ThrowingStartSticks`); in-flight tokens are the running rotations
  if and only if that never happened (`InFlightIsRunning`). The BFF's own
  `rotate` is an `async` function and never does so.
- Within the grace time a token is rotated a second time if and only if
  `maxEntries - 1` other rotations have succeeded since
  (`GraceReplaysExactlyWhen`); a run in which that happens is
  `EvictionRotatesTwice`.
- The marks of the order page show an item claimed again under warranty as a
  replacement. The page rule alone would offer it for a further claim; the form
  does not (`RulesDifferExactlyOnWarrantyClaims`, `TheRulesDoDiffer`).
- The short form of a user name such as `fb.com` is read as a host and lost
  (`FbComIsLost`). The short form of a canonical link whose path begins with two
  or more slashes, such as `https://www.facebook.com//share/x`, is read as the
  link with one (`DoubledSlashIsLost`). Among addresses without escapes these are
  all the losses (`RoundTripOfUrl`). A page known by its number comes back as a
  number, and the lone path `share` as a user name, both with the same address.
- Beyond 30 days a sale price may change on its way through the base price
  (`ExactExactlyUpTo30Days`), by at most days/60 + 1/2 (`SaleThroughBase`).
- The JSON-LD availability looks at the priced packages only, and takes a
  package without an explicit state for in stock. So it differs from the state
  on the page for a sold-out package with a price beside one in stock that costs
  nothing (`FreePackageIsMissing`); `OfferAgreesExactlyWhen` says exactly when the
  two agree.
- An accepted call whose cookie tag is unknown may run as another identity than
  expected (`RunsAsExpectedExactlyWhen`); the code skips the comparison then.
  `UnknownTagRunsAsAnother` is a run in which it does.
- A guarded call that rotates puts the cookies of the account it was sent with
  back, even if another tab has signed in meanwhile (`LateRotationBringsBack`;
  `AnswerKeepsOwnerExactlyWhen` says when an answer leaves the account as it is).
- A proxy text with blank lines, header-like lines or untrimmed lines, or a number
  above 999, does not come back from the composed hand-over unchanged
  (`ComposedTextSplits`).
- A link is looked up under any scheme it was typed with (`LinksKeepAnyScheme`).

## Model

| member | source | states |
|---|---|---|
| RefreshCoalescer.Coalescer.constructor | frontend/lib/bff-refresh-coalescer.ts:42-47 | a new coalescer has nothing in flight and nothing remembered |
| RefreshCoalescer.Coalescer.ForgetExpired | frontend/lib/bff-refresh-coalescer.ts:49-55 | the early-breaking loop leaves exactly what the specification sweep leaves |
| RefreshCoalescer.Coalescer.Request | frontend/lib/bff-refresh-coalescer.ts:57-80 | one call up to its first suspended await: its answer and the whole new state, with every invariant kept |
| RefreshCoalescer.Coalescer.Complete | frontend/lib/bff-refresh-coalescer.ts:68-77 | the end of a rotation: remembered only on success, out of flight in every case, invariants kept |
| RefreshCoalescer.SweepExact | frontend/lib/bff-refresh-coalescer.ts:49-55 | although it stops at the first entry it keeps, the sweep drops an entry exactly when it has expired or `maxEntries - 1` or more entries stand behind it; the size is below `maxEntries` afterwards |
| RefreshCoalescer.StepKeepsInv | frontend/lib/bff-refresh-coalescer.ts:46-79 | every step keeps: remembered entries distinct and sorted by expiry, in-flight and remembered tokens disjoint, running rotations in flight under their own number |
| RefreshCoalescer.RunInv | frontend/lib/bff-refresh-coalescer.ts:46-79 | the invariants hold after every interleaving |
| RefreshCoalescer.OneRotationPerToken | frontend/lib/bff-refresh-coalescer.ts:65-79 | no two rotations of one token ever overlap, and every caller of the token meanwhile is handed the running one |
| RefreshCoalescer.ReplayIsLatestSuccess | frontend/lib/bff-refresh-coalescer.ts:62-73 | whatever is replayed is the outcome of the latest rotation of that token, a success less than the grace time ago; refused and thrown outcomes are never replayed |
| RefreshCoalescer.GraceReplaysExactlyWhen | frontend/lib/bff-refresh-coalescer.ts:49-72 | inside the grace time, and until a new rotation of the token starts, a caller is answered with the outcome of the success if and only if fewer than `maxEntries - 1` other rotations succeeded since; in exactly the other case a second rotation of the token starts |
| RefreshCoalescer.NoSecondRotationWithinCapacity | frontend/lib/bff-refresh-coalescer.ts:7-19 | so no second rotation of a token starts inside the grace time before `maxEntries - 1` others have succeeded, whatever else happens |
| RefreshCoalescer.EvictionRotatesTwice | frontend/lib/bff-refresh-coalescer.ts:52-53 | a concrete run, with room for two entries, in which a token is rotated a second time inside its grace time |
| RefreshCoalescer.StaysRemembered | frontend/lib/bff-refresh-coalescer.ts:49-72 | until a new rotation of its token starts, a success keeps its place behind exactly the successes after it, or was crowded out by `maxEntries - 1` of them |
| RefreshCoalescer.ThrowingStartSticks | frontend/lib/bff-refresh-coalescer.ts:68-79 | a `rotate` that throws before returning a promise leaves its token in flight for ever, since the cleanup runs before the entry is set |
| RefreshCoalescer.InFlightIsRunning | frontend/lib/bff-refresh-coalescer.ts:65-79 | the in-flight tokens are those of the running rotations if and only if no started rotation threw synchronously |
| LookupThrottle.Throttle.constructor | frontend/lib/lookup-guard.ts:24-28 | a new throttle has no window yet |
| LookupThrottle.Throttle.Allow | frontend/lib/lookup-guard.ts:30-45 | the answer and the whole new state of one lookup, with the counter invariants kept |
| LookupThrottle.CountersBounded | frontend/lib/lookup-guard.ts:18-45 | after any run the per-client counters add up to at most `started`, which is at most `globalLimit`, and the map holds no more clients than that |
| LookupThrottle.TwiceTheLimit | frontend/lib/lookup-guard.ts:30-45 | any stretch of `windowMs` of any run admits at most twice the limit, of all lookups and of each client; all lookups together stay below twice the limit when both limits are positive |
| LookupThrottle.BoundsAreReached | frontend/lib/lookup-guard.ts:30-45 | concrete runs that reach both bounds |
| LookupThrottle.RefusedOnlyWhenUsedUp | frontend/lib/lookup-guard.ts:30-45 | a lookup is admitted if and only if the window it falls in has admitted fewer than the global limit so far and, for a known client, fewer than the client limit of that client |
| TtlCache.Cache.constructor | frontend/lib/lookup-guard.ts:51-53 | a new cache is empty |
| TtlCache.Cache.Get | frontend/lib/lookup-guard.ts:56-64 | `get` answers what the history of sets determines |
| TtlCache.Cache.Set | frontend/lib/lookup-guard.ts:65-73 | `set` extends the history and never exceeds the capacity |
| TtlCache.EvictExact | frontend/lib/lookup-guard.ts:67-71 | the eviction loop keeps exactly the last `maxEntries - 1` entries |
| TtlCache.GetIsExpected | frontend/lib/lookup-guard.ts:55-74 | `get` returns the latest value set for the key while it is unexpired and fewer than `maxEntries` other keys were set since, and otherwise nothing |
| TtlCache.BoundedInLastSetOrder | frontend/lib/lookup-guard.ts:65-73 | after any history the size is within capacity and the entries stand in last-set order, so the head a full cache drops is the least recently set |
| RedirectCache.Cache.constructor | frontend/lib/category-redirects.ts:61-63 | a new cache holds the empty map and has never loaded |
| RedirectCache.Cache.Get | frontend/lib/category-redirects.ts:64-70 | the answer and whole new state of one `get()` |
| RedirectCache.Cache.OnLoaded | frontend/lib/category-redirects.ts:67-67 | a load that succeeds replaces the map |
| RedirectCache.Cache.OnFailed | frontend/lib/category-redirects.ts:68-68 | a load that fails keeps the previous map |
| RedirectCache.Cache.OnFinished | frontend/lib/category-redirects.ts:69-69 | the end of any load stamps the time and frees the slot |
| RedirectCache.OneLoadAtATime | frontend/lib/category-redirects.ts:64-71 | in every interleaving at most one load is in flight, whatever loads fail |
| RedirectCache.LoadsAreSpaced | frontend/lib/category-redirects.ts:50-71 | between two starts the earlier load finished, and the later one starts `ttlMs` or more after the last finish |
| RedirectCache.AnswersAreLastLoaded | frontend/lib/category-redirects.ts:50-71 | every `get()` is answered with the map of the last successful load, empty before any: at once while fresh, and otherwise as of the moment the load it waits for settles |
| AuthSession.AuthProvider.constructor | frontend/lib/auth.tsx:27-36 | a page starts unresolved, signed in as nobody, at generation 0 |
| AuthSession.AuthProvider.SetAccountState | frontend/lib/auth.tsx:38-51 | the account, its identity and the generation after a change of account |
| AuthSession.AuthProvider.CheckSession | frontend/lib/auth.tsx:55-59 | a check takes the next number |
| AuthSession.AuthProvider.OnAnswer | frontend/lib/auth.tsx:58-71 | what an answer, refusal or failure of `/me` changes, by its number |
| AuthSession.AuthProvider.OnRefresh | frontend/lib/auth.tsx:75-79 | a re-check joins the one in flight |
| AuthSession.AuthProvider.OnRefreshSettled | frontend/lib/auth.tsx:77-77 | the shared re-check is given up when it settles |
| AuthSession.AuthProvider.OnLoggedOut | frontend/lib/auth.tsx:161-168 | a sign-out outdates every check and shows nobody |
| AuthSession.AuthProvider.HandleExpired | frontend/lib/auth.tsx:112-118 | an expiry does the same, unless already signed out |
| AuthSession.AcceptedIncrease | frontend/lib/auth.tsx:53-60 | accepted check numbers strictly increase |
| AuthSession.StaleAnswersChangeNothing | frontend/lib/auth.tsx:56-67 | the answer to a check begun before a sign-out or handled expiry changes nothing the tab shows |
| AuthSession.SignedOutUntilNewCheck | frontend/lib/auth.tsx:112-168 | once signed out, the tab shows nobody until the answer to a check begun afterwards |
| AuthSession.OnlyTheServerChangesIdentity | frontend/lib/auth.tsx:61-67 | a resolved identity changes only by sign-out, handled expiry or an accepted word of the server; a network failure signs nobody out |
| AuthSession.ShownIsLastWord | frontend/lib/auth.tsx:38-71 | the account shown is that of the last accepted answer, sign-out or handled expiry in the history |
| AuthSession.GenerationCountsChanges | frontend/lib/session-identity.ts:13-19 | `generation` equals the number of changes between resolved identities |
| SessionGuard.TabGuard.constructor | frontend/lib/session-guard.ts:12-12 | a page has learned no tag when it loads, as in the protocol |
| SessionGuard.TabGuard.GuardHeaders | frontend/lib/session-guard.ts:25-28 | the learned tag goes with every call but those of identity routes |
| SessionGuard.TabGuard.HeadersArePrepared | frontend/lib/session-guard.ts:25-28 | the header sent is the one the call of the protocol carries |
| SessionGuard.TabGuard.ObserveResponse | frontend/lib/session-guard.ts:31-37 | only identity routes teach the tag, and what is learned is what the protocol says after the response; a refusal is signalled |
| SessionGuard.TabGuard.OthersTeachNothing | frontend/lib/session-guard.ts:30-33 | every other event leaves the tab holding what it has learned |
| SessionGuard.RoutesAgree | frontend/lib/session-guard.ts:14-22 | the browser half and the server half agree on which routes carry the identity |
| SessionGuard.JarsAreOneAccount | frontend/app/api/[...path]/route.ts:60-69 | in every run the two cookies are never of different accounts |
| SessionGuard.AcceptedRunsAsLearned | frontend/app/api/[...path]/route.ts:324-335 | a guarded call accepted under a known cookie tag can run only as the identity whose tag the tab had learned when it prepared the call, also after a rotation and retry |
| SessionGuard.RunsAsExpectedExactlyWhen | frontend/lib/bff-session-tag.ts:36-47 | an accepted call surely runs as expected if and only if the cookie tag was known, or nobody was expected and no refresh cookie is left |
| SessionGuard.UnknownTagRunsAsAnother | frontend/lib/bff-session-tag.ts:32-41 | a concrete run of two tabs in which an accepted call runs as the account of the other tab |
| SessionGuard.OwnerHasSignedIn | frontend/app/api/[...path]/route.ts:402-463 | in every run the account whose cookies the browser holds has come in by an answer of one of the six routes that sign in; no other answer, however late, brings in another |
| SessionGuard.AnswerKeepsOwnerExactlyWhen | frontend/app/api/[...path]/route.ts:453-486 | an answer of any other route leaves the account of the cookies as it is if and only if it sets none, or rotates while they are of the account they were of when the call was sent, or clears those of nobody |
| SessionGuard.LateRotationBringsBack | frontend/app/api/[...path]/route.ts:453-463 | a concrete run in which a guarded call that rotates is answered after another tab signed in, and puts the cookies of the first account back |
| SessionGuard.LabelIsTagAfter | frontend/app/api/[...path]/route.ts:490-501 | the label of a response is the tag of the cookies it leaves behind |
| SessionGuard.CallMovesForward | frontend/app/api/[...path]/route.ts:324-335 | in every run a call goes from prepared to sent to answered and keeps what it carried |
| SessionGuard.LearnedStays | frontend/lib/session-guard.ts:30-33 | what a tab has learned changes only by a reload or an identity response of its own |
| SessionGuard.OneMeAnswerRecovers | frontend/lib/session-guard.ts:19-37 | one `/me` answer, never refused itself, makes the next call of the tab acceptable whatever it believed before, unless the cookies change otherwise |
| DisputeCase.ResourceWarrantyGeneration | frontend/lib/dispute-case.ts:254-273 | the two loops compute the specified walk on any log, cyclic ones included |
| DisputeCase.WalkIsLongestSimpleClimb | frontend/lib/dispute-case.ts:265-273 | on any log the walk ends: it visits different ids and stops at one without a parent or one already visited |
| DisputeCase.WalkOfChain | frontend/lib/dispute-case.ts:265-273 | where the chain above an id ends, the walk returns its length |
| DisputeCase.WalkMeans | frontend/lib/dispute-case.ts:254-273 | on any log the walk counts its different ids and visits all that can be climbed to; the chain ends if and only if the walk stops at an id without a parent |
| DisputeCase.DeliveryResourceMarks | frontend/lib/dispute-case.ts:203-230 | the loops compute the specified mark of every id |
| DisputeCase.LastNamingActionWins | frontend/lib/dispute-case.ts:202-230 | the mark of a row is that of the last action naming it, and the bare claim without one |
| DisputeCase.ClaimableResourceIds | frontend/lib/dispute-form.ts:50-58 | exactly the assigned and unclaimed ids |
| DisputeCase.ProxyLineMarks | frontend/lib/dispute-case.ts:166-177 | the loops compute the specified mark of every line |
| DisputeCase.LastRefundWins | frontend/lib/dispute-case.ts:166-177 | the mark of a line is the last refund of it, and the claim without one |
| DisputeCase.LineStateMatchesMark | frontend/lib/dispute-form.ts:73-81 | the form and the order page agree on every line: refunded in one if and only if in the other, and likewise claimed |
| DisputeCase.ProxyRefundTotal | frontend/lib/dispute-case.ts:316-325 | each line counts once, with the cap it was given last, and without a cap as 0 |
| DisputeCase.RefundTotalSplits | frontend/lib/dispute-case.ts:316-325 | refunding in two rounds pays what one round would |
| DisputeRun.StepKeepsInv | marketplace-svc/src/disputes/service.py:596-645 | claims, replacements and refunds keep every invariant of the log, the rows, the lines and the warranty |
| DisputeRun.RunInv | marketplace-svc/src/disputes/service.py:1505-1597 | the invariants hold after every run |
| DisputeRun.ClaimableProxyLineNos | frontend/lib/dispute-form.ts:71-93 | exactly the live lines, allocated or offline, that are neither claimed nor refunded |
| DisputeRun.ForestOfHeightTwo | frontend/lib/dispute-case.ts:234-273 | in every reachable case the chain above every id ends after `generation` steps, at most 2, and at most 1 for a claimed id |
| DisputeRun.EdgesAreReplacements | frontend/lib/dispute-case.ts:258-263 | an id has a parent if and only if a replace action brought it in; that is the only one, and the parent is the item it replaced |
| DisputeRun.RemediedAtMostOnce | marketplace-svc/src/disputes/service.py:1515-1526 | each item and line is claimed at most once and remedied at most once, and only claimed ones are |
| DisputeRun.ClaimedIsAccountedFor | frontend/lib/dispute-case.ts:40-61 | conservation: claimed = pending + refunded + replaced in every reachable case |
| DisputeRun.ReadyWhenNothingPending | frontend/lib/dispute-case.ts:68-73 | an open case with claims can be accepted if and only if nothing claimed is pending |
| DisputeRun.MarksShowTheCase | frontend/lib/dispute-case.ts:202-230 | in a reachable case a row reads as remedied, as a replacement or as claimed exactly when it is that; a claim under warranty leaves the replacement mark |
| DisputeRun.RulesDifferExactlyOnWarrantyClaims | frontend/lib/dispute-case.ts:275-286 | the page rule allows what the form refuses if and only if the item was claimed under warranty and is pending; it never refuses what the form allows |
| DisputeRun.TheRulesDoDiffer | frontend/features/buyer-orders/ui/DisputeModal.tsx:160-165 | a concrete reachable run in which the two rules differ |
| DisputeBatches.ChunkDisputeResourceIds | frontend/lib/dispute-batches.ts:5-19 | the de-duplicated ids cut every `batchSize`; an error exactly for a size below 1 |
| JsCollections.UniqueKeepsOrder | frontend/lib/dispute-batches.ts:13-13 | de-duplicated ids stand in first-seen order |
| DisputeBatches.ChunksCut | frontend/lib/dispute-batches.ts:13-18 | the batches concatenate to the ids in first-seen order, none is empty and all but the last are full |
| DisputeBatches.ChunkCount | frontend/lib/dispute-batches.ts:13-18 | there are as few batches as there can be |
| DisputeBatches.ChunkPosition | frontend/lib/dispute-batches.ts:15-17 | where each id ends up |
| DisputeBatches.ChunkPairedDisputeResources | frontend/lib/dispute-batches.ts:21-44 | both lists are cut alike; a choice that does not pair up is refused, and so is a size below 1 without a choice |
| DisputeBatches.PairsStayTogether | frontend/lib/dispute-batches.ts:36-43 | every claimed id is sent with the replacement chosen at its own position, whichever batch it ends up in |
| DisputeBatches.OpenDisputeBatched | frontend/lib/api.ts:544-560 | the requests sent are the plan up to the first failure |
| DisputeBatches.OpenSendsEachIdOnce | frontend/lib/api.ts:544-560 | opening sends every id exactly once in first-seen order, the proxy lines with the first request only; a failure leaves a prefix sent |
| DisputeBatches.SellerResolveBatched | frontend/lib/api.ts:1407-1427 | the requests sent are the plan up to the first failure, and none for a choice that does not pair up |
| DisputeBatches.NoteGoesWithTheLastRequest | frontend/lib/api.ts:1407-1427 | resolving sends every id exactly once; the note goes with the last request of the plan and no other |
| FacebookRoundTrip.ParseHref | frontend/lib/facebook-lookup.ts:35-42 | parsing an address gives back what it was written from |
| FacebookRoundTrip.GroupComesBack | frontend/lib/facebook-lookup.ts:104-107 | the short form of every group is read as that group |
| FacebookRoundTrip.PeopleComesBack | frontend/lib/facebook-lookup.ts:108-110 | the short form of every person page is read as that page |
| FacebookRoundTrip.PagesComesBack | frontend/lib/facebook-lookup.ts:111-116 | the short form of every named page is read as that page |
| FacebookRoundTrip.ProfileComesBack | frontend/lib/facebook-lookup.ts:94-102 | the short form of every profile is read as that profile |
| FacebookRoundTrip.BareComesBack | frontend/lib/facebook-lookup.ts:71-75 | ids, and user names without `.com`, are read as they stand |
| FacebookRoundTrip.LinkIsRead | frontend/lib/facebook-lookup.ts:82-89 | the short form of every short or share link is read as that link, but for canonical links whose path begins with two slashes, read as the link with one, and for one path read as a user name with the same address |
| FacebookRoundTrip.UsernameComesBack | frontend/lib/facebook-lookup.ts:119-123 | a user name comes back as itself, or as nothing when it hides a host of the site |
| FacebookRoundTrip.RoundTripOfUrl | frontend/lib/facebook-lookup.ts:54-58 | for every target made of a well-formed address, its short form leads back to the same address if and only if it is neither a user name that is a host of the site nor a canonical link whose path begins with two slashes; what the lost ones are read as |
| FacebookRoundTrip.RoundTripOfText | frontend/lib/facebook-lookup.ts:44-124 | the same for whatever was typed, bare names and ids included |
| FacebookRoundTrip.FbComIsLost | frontend/lib/facebook-lookup.ts:47-52 | a user name whose short form is read as nothing: `fb.com` |
| FacebookRoundTrip.SecondReadingIsStable | frontend/lib/facebook-lookup.ts:54-58 | after one reading of its short form the address of a target stays the same, also that of a link which lost slashes |
| FacebookRoundTrip.DoubledSlashIsLost | frontend/lib/facebook-lookup.ts:82-89 | the link `//share/<id>` on the canonical host is a target whose short form is read as `/share/<id>` |
| FacebookSite.HostIsRootOrBelow | frontend/lib/facebook-lookup.ts:29-33 | the hosts of the site are the five roots and the names below them; cutting `www.` off changes nothing |
| FacebookSite.HostDoesNotMatter | frontend/lib/facebook-lookup.ts:77-123 | host, scheme, final slash and foreign parameters make no difference to the target |
| FacebookSite.OwnerPathsAgree | frontend/lib/facebook-lookup.ts:119-123 | a path below a user name is the owner's if and only if its next segment is a known sub-path |
| FacebookSite.NumberPathsAgree | frontend/lib/facebook-lookup.ts:71-123 | an id typed bare, as a path, behind `/photo/` or ending a page's path is looked up at one address |
| FacebookSite.TargetsStayOnTheSite | frontend/lib/facebook-lookup.ts:67-124 | whatever is typed, what is looked up parses again as an address on a host of the site; it is a canonical `https` one unless it is a link to be resolved |
| FacebookSite.LinksKeepAnyScheme | frontend/lib/facebook-lookup.ts:47-48 | a link is looked up under the scheme it was typed with, whichever that is |
| FaqText.PrintThenParse | frontend/lib/faq-text.ts:10-20 | printing then parsing is the identity on lists of printable pairs |
| FaqText.PrintedListsComeBackExactlyWhen | frontend/lib/faq-text.ts:10-20 | a list comes back if and only if every question is one trimmed line and every answer trimmed non-empty lines |
| FaqText.ParseIsStable | frontend/lib/faq-text.ts:10-20 | what any text parses to survives being printed and parsed again |
| FaqText.NoBreakInside | frontend/lib/faq-text.ts:12-12 | no blank line begins inside a stretch whose every newline is followed by a visible character |
| DproxyPlan.KeyRoundTrip | frontend/lib/dproxy-plan.ts:47-54 | parsing a formatted plan key gives back what went in if and only if type and network are trimmed and free of the bar character |
| DproxyPlan.WriteThenRead | frontend/lib/dproxy-plan.ts:112-154 | writing packages and reading them back leaves one package for each key, at its first position with its last price |
| DproxyPlan.RoundTripExactlyWhen | frontend/lib/dproxy-plan.ts:112-154 | exactly the valid packages come back, in order, if and only if their codes are trimmed, free of the bar character and distinct |
| DproxyPlan.SaleThroughBase | frontend/lib/dproxy-plan.ts:56-64 | sale price to base price and back is off by at most days/60 + 1/2, also when the base rounds to 0, and exact up to 30 days |
| DproxyPlan.ExactExactlyUpTo30Days | frontend/lib/dproxy-plan.ts:56-64 | it is exact for every positive price if and only if the duration is at most 30 days |
| DproxyPlan.TwoPricesOneBase | frontend/lib/dproxy-plan.ts:61-64 | beyond 30 days two prices share one base |
| ProxyDelivery.Field | frontend/lib/proxy-delivery.ts:13-19 | the loop finds the value of the first line of that name |
| ProxyDelivery.CompactProxy | frontend/lib/proxy-delivery.ts:21-28 | the import line of a text, by the specification |
| ProxyDelivery.CompactOfCredentials | frontend/lib/proxy-delivery.ts:13-28 | of a text with the four fields the import line is `host:port:user:pass`, colons inside a value included |
| ProxyDelivery.SplitProxyBlocks | frontend/lib/proxy-delivery.ts:31-47 | the method yields the blocks of the specification scan |
| ProxyDelivery.BlockLoop | frontend/lib/proxy-delivery.ts:34-45 | the loop over `current` and `blocks` computes that scan |
| ProxyDelivery.SplitsExactlyWhen | frontend/lib/proxy-delivery.ts:31-47 | a text is split if and only if its first line is a header and another header follows; there is one block a header |
| ProxyDelivery.LabelIsHeaderExactlyWhen | frontend/lib/order-ref.ts:28-30 | a label is read as the header of its number if and only if the number is at most 999 |
| ProxyDelivery.ComposedTextSplits | marketplace-svc/src/resources/proxy_service.py:61-69 | splitting what the backend composes for an order returns the numbers and texts handed over, in order, if and only if two or more proxies have a text, each with a number up to 999 and a text made of trimmed, non-blank, non-header lines |
| ProxyDelivery.BlocksAreSplittable | frontend/lib/proxy-delivery.ts:34-45 | every block of any text has such a number and such lines |
| ProxyDelivery.ImportLinesComeBack | frontend/lib/proxy-delivery.ts:13-52 | every proxy handed over with its four fields gets its own number, text and import line from the composed text |
| PricingDisplay.FromPriceIsMinimum | frontend/lib/pricing-display.ts:30-46 | without a plan table the closed form is the minimum of the rounded price over every type, network and duration |
| PricingDisplay.CombosAbove | frontend/components/PricingParamsEditor.tsx:272-278 | no combination is cheaper than that of the cheapest parts |
| PricingDisplay.SameFormula | frontend/components/PricingParamsEditor.tsx:276-276 | the card divides the days by 30 first and the editor last, to one price |
| PricingDisplay.FromPriceOfPlans | frontend/lib/pricing-display.ts:31-36 | with a plan table it is the smallest positive plan price |
| PricingDisplay.ShownPriceCanBePaid | frontend/lib/pricing-display.ts:59-67 | the price shown is that of a package that can be ordered, none of those is cheaper; without any it is the cheapest there is |
| Stock.RollUpIsPurchasable | frontend/lib/stock.ts:92-115 | a product can be ordered if and only if one of its active packages can |
| Stock.RollUpMeans | frontend/lib/stock.ts:85-100 | low means that no package is in stock and some are low; out means that every one is out |
| Stock.MoreStockIsNoWorse | frontend/lib/stock.ts:50-62 | by count, more units never read as a worse state; over ten is in stock, none or fewer is out |
| StructuredData.OfferAgreesExactlyWhen | frontend/lib/structured-data.ts:110-130 | the availability of the offer, made of the priced packages, is the image of the state rolled up from all active ones if and only if every active package reads no better than some priced one, all priced ones being explicit; otherwise exactly if some active package reads as in stock |
| StructuredData.AgreementOnOneList | frontend/lib/structured-data.ts:72-85 | on one list of active packages the two classifiers agree if and only if every state is explicit or some package reads as in stock |
| StructuredData.MarkupAgreesWithPage | frontend/lib/structured-data.ts:117-130 | on active, priced packages with explicit states the JSON-LD availability is the image of the state on the page |
| StructuredData.FreePackageIsMissing | frontend/lib/structured-data.ts:117-130 | a list on which they differ: sold out with a price beside in stock at price 0 |
| StructuredData.OfferContainsShownPrice | frontend/lib/structured-data.ts:110-130 | `lowPrice` and `highPrice` enclose the price shown, which is the low price exactly when a cheapest package can be ordered or none can |
| StructuredData.FormulaLowPrice | frontend/lib/structured-data.ts:94-105 | without packages the low price is the "from" price, rounded for request packages |

## Left out

Assumptions and simplifications:

- Digests are injective: a refresh token stands for its SHA-256 key, a session tag for the `sub` claim (section 4.1.2 of RFC 7519) it hashes, and no digest is the word for nobody.
- Clocks are parameters. The coalescer, the throttle and the TTL cache are proved for clocks that do not go back; the redirect cache for any clock.
- Numbers are exact integers and reals: floating-point error, NaN and infinities do not occur.
- Lower-casing is that of ASCII letters.
- URLs are read in canonical form: a host in lower case that is not empty, no port, credentials, dot segments or escapes, in path or query, and in the round trips segments of the characters `encodeURIComponent` leaves alone. Doubled slashes are modelled. The full URL parser is not part of this model.
- What a server, a `rotate` or a `load` answers is a parameter of each event; `load` returns a promise.
- RefreshCoalescer.Coalescer.Request: the key is the token itself and a promise is the number of its rotation; raw tokens staying out of memory is not captured.
- TtlCache.Cache.Set: the clock is read once a call; a `maxEntries` below 1 holds one entry, as in the code.
- AuthSession.AuthProvider.OnAnswer: the `loading` flag and the liveness of the promise shared by `refresh` are not claimed, since a sign-out during the first check leaves the flag set.
- AuthSession.AuthProvider.SetAccountState: clearing the query cache and the local storage is represented by the generation it goes with.
- SessionGuard.AnswerKeepsOwnerExactlyWhen: a rotation yields tokens of the account of the refresh cookie it used up; which answers rotate is a parameter of the run.
- SessionGuard.AcceptedRunsAsLearned: the guard is stated about the learned tag; the account shown may differ from it for a moment, because tags are not numbered.
- DisputeCase.DeliveryResourceMarks: actions are of the two kinds the back end writes, `replace` and `refund`.
- DisputeRun.StepKeepsInv: replacement ids are new to the order, as the back end only assigns available items of no order; a run is one dispute.
- DisputeBatches.ChunkPairedDisputeResources: requires a positive batch size where the code would loop for ever on another: a choice that pairs up and ids to send. The callers use the default.
- DproxyPlan.KeyRoundTrip: prices are whole amounts and days natural numbers; of what `Number` accepts only runs of digits are read as days.
- FacebookSite.TargetsStayOnTheSite: about text as the canonical reading above sees it, so not about credentials, back slashes or escapes in an address.
- FacebookRoundTrip.RoundTripOfText: requires the address a text was read as, if any, to be well formed in that sense. So the losses are counted among addresses without escapes; a group whose slug holds an escaped slash, such as `/groups/a%2Fb`, is printed decoded and is a further loss; people and pages are encoded again.
- StructuredData.OfferAgreesExactlyWhen: the page is represented by the state rolled up from the variants; where a payload carries its own `availability`, `productAvailability` shows that one.
- PricingDisplay.FromPriceIsMinimum: a missing or non-positive list of choices counts as its default, 1 or 30 days, on both sides.

Not modelled:

- `pendingProxyLineNos`, `orderProxyLines`, `isSingleConfigPlan`, `isAdapterFulfilled`, `facebookEntityType`, `facebookIdLink`: one filter, sort or test each.
- `toRedirectMap`, `isCategoryPath` and `categoryRedirectLocation`: one pattern and one map look-up.
- `guessDproxyMapping`, plan labels and display names: heuristics and wording.
- Dispute timelines, messages, previews and chips: wording.
- React rendering and routing, request builders, the rest of `frontend/lib/api.ts`.
- Signing, cookies and token decoding in the BFF route, beyond what the session guard needs.
- The back end's wallet, escrow, refunds of money and provisioning.
