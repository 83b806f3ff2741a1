# nauth-toolkit: verified models of the stateful cores

Dafny models of the parts of nauth-toolkit where state, expiry and concurrency meet, with proofs of what they keep.

- **The OpenID Connect storage adapter** (`Keys`, `Glob`, `Storage`, `OidcSpec`, `Sweeps`, `OidcAdapter`, `OidcTable`,
  `OidcSimulation`, `OidcDriver`, `OidcLookups`, `Dangling`). Artifacts and their index markers live under colon-joined
  keys of an expiring key-value store. The adapter is a class over a store class; its string operations are proved to
  act on typed keys, and runs, on the strings as over typed keys, are proved to simulate a plain table from (model, id)
  to payload and expiry.
- **Concurrency in that store** (`ConcurrentSweep`, `OverlappingUpserts`, `LifetimesExact`, `ConsumeRace`,
  `SweepAndConsumes`): one storage call is one atomic step, and steps of different callers interleave in any order while
  the clock moves.
- **Session termination** (`SessionTermination`, `TerminationEffect`) and **the rate limiter** (`RateLimit`, `Admission`,
  `AdmissionDriver`).
- **The token-refresh interceptor** (`UrlPaths`, `RefreshSpec`, `RefreshSafety`, `RefreshBounds`, `RefreshOutcomes`,
  `RefreshAnswers`, `RefreshInterceptor`): a state machine of calls and refreshes, where a refresh's own request passes the same
  interceptor, and a class whose handlers are its steps. **The React fetch adapter** (`FetchAdapter`) and **the
  reCAPTCHA script loader** (`ScriptLoader`) are the same pattern, stated once in `SingleFlight`.
- **The consent bridge** (`ConsentSpec`, `ConsentRuns`, `ConsentRaces`, `InteractionBridge`), together with termination
  and expiry.
- **The release script** (`Manifests`, `Publishing`, `Reruns`): version bumps and the publish loops.

## What is assumed

- The store is the in-memory adapter: a millisecond clock, an entry live up to and including its expiry, `ttl` in whole
  seconds rounded down, `keys` listing expired entries not cleaned up yet, and a clean-up that may run at any time.
- Grant and account ids and model names contain no colon; a swept id contains no `*` or `?`; no model is named `g`,
  `acct` or `rl`; ids are non-empty and do not look like a secondary lookup of their own model; models and ids hold no
  line terminator, which the compiled patterns do not match; everything else in the `oidc:` namespace was written by
  this code. An id keeps its grant, account, uid and user code once it has them.
- A stored string is modelled by what it parses to; JSON encoding and decoding undo each other.
- URLs are given parsed, as origin and path. Of the client's configured addresses, parsing cuts off the query and the
  fragment and leaves the path otherwise as it stands: no dot segments and nothing to re-encode. The base URL and the
  prefix have neither query nor fragment, and a prefix without a leading slash follows a base URL that has a path.
- The provider library's `addOIDCScope` and `addResourceScope` add the words of their argument, `save` stores a grant
  under its id or a new, never used one, and `interactionResult` records the result and whether to merge it. For
  the consent bridge, terminating an account removes its grants, which is what `TerminationEffect` proves of the store.
  Local state clearing and callbacks do not throw.

## Where the code differs from what is said about it

- `storage.adapter.ts:69-70` says the index can never outlive what it points at. It can (`DestroyedLeavesMarker`);
  `DanglingStep` says exactly which calls make it. What holds, and is needed, is the converse: no live payload outlives
  its marker.
- Even that fails when an artifact is consumed in its last second, where the remaining time reads as -2 and the payload
  is written back without an expiry. `ConsumeExact` says exactly when, and `EscapesRevocation` what follows.
- `storage.adapter.ts:116-118` calls the read, query and write of a consume safe. A lost update cannot un-consume
  (`ConsumedForever`), but a write can bring a removed artifact back, exactly as `RemovedComesBack` says, and can move
  the stored expiry further than it took, exactly as `WriteDelay` says.
- `auth-interceptor.shared.ts:203` says the path test matches the client's URL builder exactly. The client does not look
  at how the base URL ends, so the two agree only as `PathsAgree` says. The refresh request is recognised all the same,
  but not when the configured path has a query, a fragment or a trailing slash (`RefreshRecognized`): then a refresh
  waits for itself (`DeadlockFree`).
- The client clears local state and calls `onSessionExpired` on a 401 too (`client.ts:330-343`), so with the interceptor
  the callback is made twice per failed refresh (`ClearedOncePerRefresh`).
- `rate-limit.ts:96` sorts so that `/token/introspection` is not swallowed by `/token`; paths are compared whole, so no
  order could (`OrderIrrelevant`).
- `interaction-bridge.ts:189` calls the scopes of a decision narrowed. They are not compared with the scopes asked for;
  `NarrowedExactly` says when they are. A new grant belongs to the account of the provider's session, which is not
  compared with the user the gate vouches for (`NewGrantOwner`).
- `publish.js:420` advises a second run for a partial release. The script lets npm write to its own terminal, so the
  error it tests at 380-381 carries only the command line and never npm's words: every package already published fails
  again, listed or not (`RerunFails`). `RerunSucceeds` also says what captured output would change.

## Model

| member | source | states |
|---|---|---|
| Keys.ParsePrint | packages/oidc-provider/src/storage.adapter.ts:36-43 | a stored key of any of the six families reads back to the family and fields it was printed from, for ids that may themselves contain colons |
| Keys.KeyScheme | packages/oidc-provider/src/storage.adapter.ts:36-43 | the six key formats, as documented |
| Keys.PrintInjective | packages/oidc-provider/src/storage.adapter.ts:36-43 | each family is injective and no two families, the rate limiter's among them, ever share a string |
| Keys.MarkerFields | packages/oidc-provider/src/storage.adapter.ts:149-155 | splitting a marker on colons and joining again from part 4 gives back exactly the id it was written for, and part 3 its model |
| Keys.GrantPrefixExact | packages/oidc-provider/src/storage.adapter.ts:146-148 | a grant's sweep prefix fits a key if and only if the key is a marker of that very grant, even when another grant's id extends it |
| Keys.AccountPrefixExact | packages/oidc-provider/src/storage.adapter.ts:168-172 | an account's sweep prefix fits a key if and only if it is that account's marker for that model |
| Text.JoinSplit | packages/oidc-provider/src/storage.adapter.ts:150-152 | joining undoes splitting, for every string |
| Glob.PrefixPattern | packages/core/src/storage/memory-storage.adapter.ts:434-444 | a pattern of a wildcard-free prefix and a star matches exactly the strings with that prefix and no line terminator after it |
| Storage.MemoryStorage.Get | packages/core/src/storage/memory-storage.adapter.ts:79-92 | answers the value unless it is missing or expired, and drops an entry it finds expired |
| Storage.MemoryStorage.Set | packages/core/src/storage/memory-storage.adapter.ts:101-126 | replaces value and expiry; a zero or absent lifetime means no expiry |
| Storage.MemoryStorage.Incr | packages/core/src/storage/memory-storage.adapter.ts:159-190 | starts a window at one on a missing or expired key, and otherwise counts on without moving its end |
| Storage.MemoryStorage.Ttl | packages/core/src/storage/memory-storage.adapter.ts:224-236 | whole seconds left; -1 without expiry; -2 for a missing key and for less than one second left |
| Storage.RemainingMeans | packages/core/src/storage/memory-storage.adapter.ts:224-236 | the query answers a positive number of seconds if and only if that many whole seconds are left and no more |
| Storage.LifetimeMeans | packages/core/src/storage/memory-storage.adapter.ts:101-126 | a value stored with a lifetime is live for that many seconds, to the last millisecond, and one stored without, or with zero, for ever |
| Storage.MemoryStorage.Keys | packages/core/src/storage/memory-storage.adapter.ts:357-360 | lists exactly the stored keys that match, each once, expired ones included |
| Storage.MemoryStorage.CleanupExpired | packages/core/src/storage/memory-storage.adapter.ts:412-427 | removes exactly the expired entries |
| OidcAdapter.NAuthOIDCAdapter.Upsert | packages/oidc-provider/src/storage.adapter.ts:72-88 | writes the payload and exactly the markers its model and fields call for, all with one expiry, and leaves every key outside the namespace alone |
| OidcAdapter.NAuthOIDCAdapter.Find | packages/oidc-provider/src/storage.adapter.ts:93-95 | the live payload of this model and id, or nothing |
| OidcAdapter.NAuthOIDCAdapter.FindByUid | packages/oidc-provider/src/storage.adapter.ts:100-103 | follows the uid marker to the payload it names, and leaves the store as it was but for what of the two it found expired: every entry was there before, unchanged, and every live one still is |
| OidcAdapter.NAuthOIDCAdapter.FindByUserCode | packages/oidc-provider/src/storage.adapter.ts:108-111 | follows the user code marker to the device code it names, and leaves the store as it was but for what of the two it found expired: every entry was there before, unchanged, and every live one still is |
| OidcAdapter.NAuthOIDCAdapter.Consume | packages/oidc-provider/src/storage.adapter.ts:120-129 | rewrites a live payload with its consumed mark and the whole seconds it had left, or with no expiry when less than one second was left; does nothing for an absent one |
| OidcAdapter.NAuthOIDCAdapter.Destroy | packages/oidc-provider/src/storage.adapter.ts:134-136 | deletes the payload only; its markers stay |
| OidcAdapter.NAuthOIDCAdapter.RevokeByGrantId | packages/oidc-provider/src/storage.adapter.ts:145-158 | the string sweep (pattern, split, rejoin, delete) removes exactly the grant's markers of every model and the payloads they name |
| OidcAdapter.NAuthOIDCAdapter.RevokeByAccountId | packages/oidc-provider/src/storage.adapter.ts:168-184 | removes exactly this model's markers of the account and the payloads they name, and returns how many markers there were |
| OidcSimulation.Simulation | packages/oidc-provider/src/storage.adapter.ts:60-184 | over every run of upsert, the three lookups, consume, destroy, both sweeps, clock ticks and clean-ups, the store simulates the table (model, id) -> (payload, expiry), no marker is foreign, and every live row's markers are there and outlast it |
| OidcDriver.PlayAll | packages/oidc-provider/src/storage.adapter.ts:60-184 | any list of calls made on the adapter objects over the string store, lookups among them, and clock ticks and reads of expired keys, comes to the run over typed keys, each lookup answered as there |
| OidcDriver.PlayFromEmpty | packages/oidc-provider/src/storage.adapter.ts:60-184 | so a string store that started empty simulates the table after any admissible list of calls, and every lookup among them was answered by the table as it then stood |
| OidcSimulation.InvStep | packages/oidc-provider/src/storage.adapter.ts:72-184 | each single call keeps the simulation and the index |
| OidcSimulation.InvReadOnly | packages/oidc-provider/src/storage.adapter.ts:93-111 | a lookup, or a clean-up of expired keys, keeps the simulation and leaves the table as it was |
| OidcSimulation.ConsumeExact | packages/oidc-provider/src/storage.adapter.ts:120-129 | a consume keeps the index if and only if the artifact is absent, permanent, unindexed, or has a whole second left |
| OidcLookups.FindByUidIsLast | packages/oidc-provider/src/storage.adapter.ts:97-103 | in every reachable state `findByUid` equals `find` of the last Session or Interaction written with that uid in its payload, and what it returns carries the uid, also after rotation, destruction, revocation or expiry |
| OidcLookups.FindByUserCodeIsLast | packages/oidc-provider/src/storage.adapter.ts:105-111 | the same for device codes and user codes |
| OidcLookups.RevokedGrantIsGone | packages/oidc-provider/src/storage.adapter.ts:138-158 | in every reachable state, revoking a grant makes unfindable exactly the artifacts found with its id, non-empty, in their payload and of one of the five models that carry grants, and leaves every other as it was |
| OidcLookups.UpsertWrites | packages/oidc-provider/src/storage.adapter.ts:72-88 | key by key, on the payload's own fields: an upsert writes the payload and a marker for each non-empty field its model is indexed by, all with one expiry, and leaves every other entry as it was |
| OidcLookups.EscapesRevocation | packages/oidc-provider/src/storage.adapter.ts:113-129 | the family of runs `ConsumeExact` warns of: any artifact of a grant consumed in its last second becomes permanent, and revoking the grant no longer reaches it |
| Dangling.DanglingStep | packages/oidc-provider/src/storage.adapter.ts:66-158 | from a state without a dangling live marker a call leaves one if and only if it destroys a live row that has a marker, sweeps a row that also has a marker of another kind, or the clock passes a row's expiry that a consume had rounded down below its marker's |
| Dangling.DanglesExactly | packages/oidc-provider/src/storage.adapter.ts:66-158 | over runs: no marker dangles at any time if and only if no step does so |
| Dangling.DestroyedLeavesMarker | packages/oidc-provider/src/storage.adapter.ts:131-136 | the run to a dangling marker: any artifact written with a grant and then destroyed |
| ConcurrentSweep.SweepExact | packages/oidc-provider/src/storage.adapter.ts:145-158 | with storage calls interleaved one by one, an artifact not written during the sweep is gone at its end if and only if its marker was listed, or it expired |
| ConcurrentSweep.SweepAlone | packages/oidc-provider/src/storage.adapter.ts:145-158 | a sweep made without a break comes to the revocation of the sequential model |
| ConcurrentSweep.PutsUpsert | packages/oidc-provider/src/storage.adapter.ts:72-88 | the writes of an upsert made without a break come to the upsert of the sequential model |
| OverlappingUpserts.SweepReaches | packages/oidc-provider/src/storage.adapter.ts:72-88 | after any number of upserts of an artifact under the grant with one lifetime, overlapping in any way and complete before the listing, the artifact is absent when the sweep ends |
| LifetimesExact.ReachedExactly | packages/oidc-provider/src/storage.adapter.ts:72-88 | every run of overlapping upserts with lifetimes from a set is reached if and only if the lifetimes are all equal or all without expiry |
| ConcurrentSweep.SweepSpares | packages/oidc-provider/src/storage.adapter.ts:145-158 | no deletion of a sweep touches an artifact never written under the grant |
| LifetimesExact.OverlapEscapes | packages/oidc-provider/src/storage.adapter.ts:72-88 | for every grantable model and any two lifetimes that differ, finite or permanent, a run of two overlapping upserts after which a sweep misses the live artifact |
| ConsumeRace.ConsumedForever | packages/oidc-provider/src/storage.adapter.ts:113-129 | however consumes interleave, the payload never becomes un-consumed and keeps every other field |
| ConsumeRace.LifetimeBounded | packages/oidc-provider/src/storage.adapter.ts:120-129 | if every time-to-live query finds a permanent artifact or a whole second left, interleaved consumes never lengthen the life it has left |
| ConsumeRace.WriteDelay | packages/oidc-provider/src/storage.adapter.ts:126-128 | a write moves the stored expiry later by at most the time since its query if and only if the stored expiry is still as far from that query as the whole seconds it answered |
| ConsumeRace.StoredBound | packages/oidc-provider/src/storage.adapter.ts:120-129 | if no other consume writes between a consume's query and its write, the write finds the entry its query saw, or none, and moves its expiry later by at most the time between |
| ConsumeRace.RemovedComesBack | packages/oidc-provider/src/storage.adapter.ts:113-129 | an artifact removed while consumes are under way is back at some time after if and only if a consume that had read it before the removal writes after it |
| SweepAndConsumes.SurvivesExactly | packages/oidc-provider/src/storage.adapter.ts:113-158 | consumes beside a grant sweep: the artifact lives again after the sweep's deletion of it if and only if a consume that had read it before writes after it |
| SweepAndConsumes.SweptUnlessOvertaken | packages/oidc-provider/src/storage.adapter.ts:145-158 | a finished sweep that listed the artifact's marker has deleted it, for good unless so overtaken |
| SweepAndConsumes.ConsumeAlone | packages/oidc-provider/src/storage.adapter.ts:120-129 | the three calls of a consume made without a break come to the consume of the sequential model |
| ConsumeRace.WriteOvertakes | packages/oidc-provider/src/storage.adapter.ts:120-129 | a run in which a write one millisecond after its query moves the stored expiry by a full second, because another consume had rounded it down in between |
| SessionTermination.OIDCSessionTerminator.TerminateFor | packages/oidc-provider/src/session-termination.ts:40-44 | sweeps the account's sessions and grants and counts the markers of each |
| SessionTermination.OIDCSessionTerminator.TerminateAndRevokeFor | packages/oidc-provider/src/session-termination.ts:56-71 | sweeps all five models; each count is of the state before the call, since no sweep disturbs another's markers |
| SessionTermination.TerminateTwice | packages/oidc-provider/src/session-termination.ts:26-71 | a second run returns zeros and changes nothing |
| SessionTermination.TerminationsCommute | packages/oidc-provider/src/session-termination.ts:26-71 | runs for different accounts commute and do not change what the other counts |
| TerminationEffect.TerminationEffect | packages/oidc-provider/src/session-termination.ts:26-71 | in every reachable state, termination makes unfindable exactly the artifacts of the named models found with the account, non-empty, in their payload, and leaves every other as it was |
| TerminationEffect.EndsSessions | packages/oidc-provider/src/session-termination.ts:26-44 | `terminateFor` makes unfindable exactly the account's Session and Grant artifacts, so it leaves every token as it was |
| TerminationEffect.EndsTokens | packages/oidc-provider/src/session-termination.ts:46-71 | `terminateAndRevokeFor` does so for the five models it names and no others, device codes and backchannel requests among those it leaves |
| TerminationEffect.CountOfSweep | packages/oidc-provider/src/storage.adapter.ts:174-183 | the count returned is never below the live artifacts deleted, and equals it if and only if no marker dangles |
| RateLimit.RateLimiter.constructor | packages/oidc-provider/src/rate-limit.ts:74-87 | the limited paths are exactly those configured, under the prefix, and no two are equal |
| RateLimit.RateLimiter.Handle | packages/oidc-provider/src/rate-limit.ts:89-129 | forwards uncounted when no path matches or storage fails; otherwise counts once, under the limit of that path and the first forwarded address, or without one the connection's address, or `unknown`, and forwards if and only if the count is within the limit |
| RateLimit.ForwardedIp | packages/oidc-provider/src/rate-limit.ts:135-142 | a request with a forwarding header comes from what stands before the first comma, without the blanks around it, whatever the connection says |
| RateLimit.MatchExactly | packages/oidc-provider/src/rate-limit.ts:95-97 | a limit applies if and only if it is configured for exactly this path |
| RateLimit.OrderIrrelevant | packages/oidc-provider/src/rate-limit.ts:96-97 | trying the longest path first never changes which limit applies, since paths are compared whole |
| Admission.CountedStep | packages/oidc-provider/src/rate-limit.ts:103-111 | the middleware's increment on a string key is the counting step the bounds below are proved for, and it forwards if and only if that step admits |
| Admission.AdmissionBound | packages/oidc-provider/src/rate-limit.ts:103-128 | in any run and any span, the requests of one endpoint and address admitted by a count are at most the limit times one more than the windows needed to cover the span |
| Admission.TwiceTheLimit | packages/oidc-provider/src/rate-limit.ts:103-128 | at most twice the limit in any span of one window length |
| Admission.FirstOfWindow | packages/oidc-provider/src/rate-limit.ts:103-111 | within one window exactly the first requests up to the limit pass |
| AdmissionDriver.Play | packages/oidc-provider/src/rate-limit.ts:89-129 | the limiter object driven by requests, waits and clean-ups over its string store: what it lets through by a count, from its own answers, is what the events above admit |
| AdmissionDriver.Bounded | packages/oidc-provider/src/rate-limit.ts:89-129 | so the admission bound holds of the object's own answers |
| UrlPaths.ApiTargetBySegments | packages/client-angular/src/lib/auth-interceptor.shared.ts:120-131 | a request is for the API if and only if the origins agree and the base path's segments are a prefix of its own |
| UrlPaths.EndpointBySegments | packages/client-angular/src/lib/auth-interceptor.shared.ts:143-149 | a request is at an endpoint if and only if the endpoint's segments are a suffix of its own, so no partial segment ever matches |
| UrlPaths.InterceptedExactly | packages/client-angular/src/lib/auth-interceptor.shared.ts:209-223 | a request is intercepted if and only if its origin is the base URL's, the base path's segments begin its own, and neither the refresh endpoint's nor any public endpoint's end them |
| UrlPaths.PathsAgree | packages/client-angular/src/lib/auth-interceptor.shared.ts:197-207 | the interceptor's refresh path equals the client's if and only if the prefix is empty, already starts the path, or does not end the base URL |
| UrlPaths.RefreshRecognized | packages/client-angular/src/lib/auth-interceptor.shared.ts:197-218 | the client's refresh request is recognised if and only if the configured path has no query, no fragment and no trailing slash and what it is compared with meets the base URL at a slash, even where client and interceptor disagree about the prefix |
| UrlPaths.RefreshIsApi | packages/client/src/core/client.ts:1530-1540 | the client's refresh request is under the API if and only if its path starts with a slash or the base URL ends with one |
| UrlPaths.RefreshIntercepted | packages/client-angular/src/lib/auth-interceptor.shared.ts:216-223 | the refresh request would be intercepted if and only if it is under the API, its configured path has a query, a fragment or a trailing slash, and it is not also a public endpoint |
| RefreshSafety.InvRun | packages/client-angular/src/lib/auth-interceptor.shared.ts:295-402 | in every interleaving: the flag and the observable agree, at most one refresh is unsettled, every waiter waits for that one, and each call has been sent as often as its phase says |
| RefreshBounds.DeadlockFree | packages/client-angular/src/lib/auth-interceptor.shared.ts:197-223 | every reachable state is finished or can go on, if and only if the refresh path has no query, no fragment and no trailing slash, or is also public, or is not under the API |
| RefreshSafety.StuckRun | packages/client-angular/src/lib/auth-interceptor.shared.ts:370-377 | the run that waits for itself when the refresh request is intercepted |
| RefreshBounds.MeasureStep | packages/client-angular/src/lib/auth-interceptor.shared.ts:295-402 | every step but an arrival lowers an explicit measure, and an arrival adds at most twelve |
| RefreshBounds.RunsAreShort | packages/client-angular/src/lib/auth-interceptor.shared.ts:295-402 | any run is at most thirteen times as long as the number of calls that arrived, so finitely many calls quiesce |
| RefreshOutcomes.RefreshesStarted | packages/client-angular/src/lib/auth-interceptor.shared.ts:295-308 | at most as many refreshes start as calls received a 401, and at most one is unfinished |
| RefreshOutcomes.OneOutcome | packages/client-angular/src/lib/auth-interceptor.shared.ts:309-377 | the step that ends a refresh frees the coordinator and sends every waiter with that refresh's token, or fails every waiter with its error |
| RefreshOutcomes.SentAtMost | packages/client-angular/src/lib/auth-interceptor.shared.ts:370-402 | any call is sent at most twice, and one ever gated at most once |
| RefreshOutcomes.ClearedOncePerRefresh | packages/client-angular/src/lib/auth-interceptor.shared.ts:323-354 | local state is cleared and the callback made exactly once per refresh failed with 401, however many calls wait; the client reports each such failure once more itself |
| RefreshAnswers.Arrives | packages/client-angular/src/lib/auth-interceptor.shared.ts:370-380 | an intercepted request that arrives while a refresh is in flight is held back unsent; any other is sent at once as it came, or first fetches its token in JSON mode |
| RefreshAnswers.SendsRun | packages/client-angular/src/lib/auth-interceptor.shared.ts:246-247 | in every reachable state a request has been sent with cookies if and only if it is for the API and the mode is cookies, and in that mode never with another authorization than its own |
| RefreshAnswers.TokenAttached | packages/client-angular/src/lib/auth-interceptor.shared.ts:280-291 | the stored token goes with the request it was fetched for; without one the request goes as it is |
| RefreshAnswers.AnswerMeans | packages/client-angular/src/lib/auth-interceptor.shared.ts:382-400 | the first 401 to an intercepted request none of whose submissions had one makes its call wait for the refresh in flight or start one; every other answer is the caller's |
| RefreshAnswers.RetriedRun | packages/client-angular/src/lib/auth-interceptor.shared.ts:384-395 | in every reachable state the requests not refreshed for again are exactly those of the calls that had a 401 |
| RefreshAnswers.RefreshAsks | packages/client-angular/src/lib/auth-interceptor.shared.ts:305-307 | a refresh sends one request to the refresh address, without authorization, at once unless that address is itself intercepted |
| RefreshAnswers.TokenSendsAll | packages/client-angular/src/lib/auth-interceptor.shared.ts:309-321 | JSON mode: a refresh answered with a usable token sends everyone who waits again with that token, and touches nobody else |
| RefreshAnswers.CookiesSendAll | packages/client-angular/src/lib/auth-interceptor.shared.ts:309-321 | cookies mode: an accepted refresh sends everyone who waits just as before, with cookies, and touches nobody else |
| RefreshAnswers.NoTokenFailsAll | packages/client-angular/src/lib/auth-interceptor.shared.ts:315-318 | JSON mode: an accepted refresh without a usable token fails everyone who waits |
| RefreshAnswers.RefusalFailsAll | packages/client-angular/src/lib/auth-interceptor.shared.ts:323-354 | a refresh refused with any code but 401 fails everyone who waits with that code |
| RefreshAnswers.NoAnswerFailsAll | packages/client-angular/src/lib/auth-interceptor.shared.ts:323-354 | a refresh that got no answer fails everyone who waits, without a code |
| RefreshAnswers.UnauthorizedFailsAll | packages/client-angular/src/lib/auth-interceptor.shared.ts:328-352 | a refresh refused with 401 releases nobody until local state is cleared and the callback made, once; then everyone who waited at the answer and was not cancelled since fails with 401 |
| RefreshAnswers.OthersUntouched | packages/client-angular/src/lib/auth-interceptor.shared.ts:295-402 | what happens to one call changes no other |
| RefreshInterceptor.Interceptor.Intercept | packages/client-angular/src/lib/auth-interceptor.shared.ts:370-402 | an arriving call is gated, has its token fetched, or is sent: the machine's arrival step |
| RefreshInterceptor.Interceptor.Answer | packages/client-angular/src/lib/auth-interceptor.shared.ts:382-400 | a 401 to a call not retried yet joins or starts a refresh; any other answer is final |
| RefreshInterceptor.Interceptor.DeliverRefresh | packages/client-angular/src/lib/auth-interceptor.shared.ts:309-354 | the end of the refresh request: a token, a failure, or a 401 that first clears local state |
| RefreshInterceptor.Interceptor.FinishClearing | packages/client-angular/src/lib/auth-interceptor.shared.ts:338-349 | clearing done: the callback, then the failure to every waiter |
| RefreshInterceptor.Interceptor.Finish | packages/client-angular/src/lib/auth-interceptor.shared.ts:355-359 | every waiter hears of the end in one loop, and the shared variables are reset |
| FetchAdapter.InvRun | examples/starter-react/src/lib/authHttpAdapter.ts:43-75 | in every interleaving at most one refresh is in flight, the promise is set exactly then, no call is sent more than twice, and only calls outside the refresh path ever wait |
| FetchAdapter.DeadlockFree | examples/starter-react/src/lib/authHttpAdapter.ts:43-59 | the adapter never gets stuck if and only if the refresh address contains `/refresh` |
| FetchAdapter.AnswerMeans | examples/starter-react/src/lib/authHttpAdapter.ts:46-58 | with a client, a first 401 from an address without `/refresh` in it makes the call await the refresh under way or start one; every other answer is the call's own |
| FetchAdapter.RefreshDecides | examples/starter-react/src/lib/authHttpAdapter.ts:51-75 | the refresh's own request decides: if it succeeded everyone who awaits it is sent once more, if not everyone fails, and nobody else is touched |
| FetchAdapter.RefreshingFetchAdapter.Answer | examples/starter-react/src/lib/authHttpAdapter.ts:46-58 | a 401 to a first send, outside the refresh path and with a client, joins or starts the one refresh; any other answer is the call's own |
| FetchAdapter.RefreshingFetchAdapter.Finish | examples/starter-react/src/lib/authHttpAdapter.ts:65-75 | the promise is forgotten and everyone awaiting it is sent once more, or fails |
| ScriptLoader.OneInjection | packages/client-angular/src/lib/recaptcha.service.ts:180-215 | over every run, at most one injection is out or has succeeded |
| ScriptLoader.SuccessIsLast | packages/client-angular/src/lib/recaptcha.service.ts:190-205 | once an injection has succeeded none is ever started again |
| ScriptLoader.StartsExactlyWhenNeeded | packages/client-angular/src/lib/recaptcha.service.ts:180-207 | a call starts an injection if and only if a script is wanted, a site key is there, every earlier injection has failed and its owner has heard so |
| ScriptLoader.NeverStuck | packages/client-angular/src/lib/recaptcha.service.ts:196-215 | while a caller is unanswered, some injection can settle or some caller go on |
| ScriptLoader.AnsweredAsItEnded | packages/client-angular/src/lib/recaptcha.service.ts:196-214 | whoever waited for an injection is answered as it ended, the owner and all who joined it alike, and stays so answered |
| ScriptLoader.CallMeans | packages/client-angular/src/lib/recaptcha.service.ts:180-207 | over every run: a call is fulfilled at once if no script is wanted or one is there, joins an injection that has an owner, is rejected without a site key, and else owns a new injection |
| ScriptLoader.RecaptchaService.LoadScript | packages/client-angular/src/lib/recaptcha.service.ts:180-207 | the call up to its first await, check by check |
| ScriptLoader.RecaptchaService.Continue | packages/client-angular/src/lib/recaptcha.service.ts:209-214 | the owner records a success and always forgets the promise; others only pass the answer on |
| SingleFlight.OneOpen | packages/client-angular/src/lib/auth-interceptor.shared.ts:295-360 | the pattern the three share: in every run at most one attempt is open and what has ended stays ended |
| SingleFlight.InterceptorRuns | packages/client-angular/src/lib/auth-interceptor.shared.ts:295-360 | every run of the interceptor is a run of the pattern |
| SingleFlight.AdapterRuns | examples/starter-react/src/lib/authHttpAdapter.ts:65-75 | every run of the fetch adapter is a run of the pattern |
| SingleFlight.LoaderRuns | packages/client-angular/src/lib/recaptcha.service.ts:196-214 | every run of the script loader is a run of the pattern |
| SingleFlight.InterceptorFollows | packages/client-angular/src/lib/auth-interceptor.shared.ts:295-297 | a caller that comes during a refresh is given the open one |
| ConsentRuns.AnswersFaithful | packages/oidc-provider/src/interaction-bridge.ts:147-293 | a call that redirects resolved exactly its own request, with the gate's account, a grant just approved, or a denial for one of the three reasons; a call that fails changed nothing |
| ConsentRuns.GrantStep | packages/oidc-provider/src/interaction-bridge.ts:193-272 | over one step a grant appears only by an approved consent under an unused id and for the provider session's account, keeps all it has, changes only by an approved consent that names it, and goes only by termination or expiry |
| ConsentRuns.GrantOnlyGrows | packages/oidc-provider/src/interaction-bridge.ts:242-268 | a grant live at two moments of any run has kept account, client, scopes, claims and resource scopes, and if it changed, a step between approved it with an authenticated gate and a session account |
| ConsentRuns.NeverRevived | packages/oidc-provider/src/interaction-bridge.ts:242-254 | an id whose grant is gone never names a grant again |
| ConsentRuns.TerminationIsFinal | packages/oidc-provider/src/session-termination.ts:40-44 | after `terminateFor` a grant of the account stays gone in every continuation, and a consent still naming it fails and changes nothing |
| ConsentRuns.AuditNeverMatters | packages/oidc-provider/src/interaction-bridge.ts:314-355 | with or without an audit service, whichever of its writes are rejected, every call answers and does the same, and no rejection reaches an answer |
| ConsentRuns.NewGrantOwner | packages/oidc-provider/src/interaction-bridge.ts:225-244 | a new grant belongs to the user the gate vouches for if and only if the provider's session does |
| ConsentRuns.SaveKeepsScopes | packages/oidc-provider/src/interaction-bridge.ts:242-268 | a consent whose read and save are apart keeps the stored grant's scopes, whatever is approved, if and only if the grant gained none in between |
| ConsentRuns.RemovalBetweenIsUndone | packages/oidc-provider/src/interaction-bridge.ts:242-268 | a removal between the read and the save is undone by the save |
| ConsentRaces.ComesBackExactly | packages/oidc-provider/src/interaction-bridge.ts:242-268 | over interleaved runs a save brings a grant back if and only if the grant was removed after the consent read it and no other consent has saved it since |
| ConsentRaces.LosesExactly | packages/oidc-provider/src/interaction-bridge.ts:242-268 | over interleaved runs a save drops a scope of a live grant if and only if the last consent to save it in between had put there one that this consent does not have |
| ConsentRaces.GoneExactly | packages/oidc-provider/src/session-termination.ts:40-44 | over interleaved runs a grant that was live is gone if and only if it has been removed and no consent that had read a grant of its id has saved it since |
| ConsentSpec.ApprovedExactly | packages/oidc-provider/src/interaction-bridge.ts:256-266 | approval adds the words of the scopes granted, the missing claims and per resource its missing scopes, and nothing else |
| ConsentSpec.ConsentSaves | packages/oidc-provider/src/interaction-bridge.ts:231-271 | an approved consent stores one grant, with the words of the scopes listed, or of the missing ones if none are listed, the missing claims and each resource's missing scopes added to what the named or new grant held; all other grants stay |
| ConsentSpec.ConsentExactly | packages/oidc-provider/src/interaction-bridge.ts:193-272 | the answer, the provider's state and the audit entry of every consent, by the first of its checks that fails |
| ConsentSpec.LoginExactly | packages/oidc-provider/src/interaction-bridge.ts:147-177 | a login succeeds if and only if the interaction is there and the gate lets the user in, and then for the gate's subject; a refused account is reported to the relying party, a missing login to the caller |
| ConsentSpec.NarrowedExactly | packages/oidc-provider/src/interaction-bridge.ts:256-259 | an approval adds only scopes the request was missing if and only if every word chosen is missing or already granted |
| ConsentSpec.ScopesAsChosen | packages/oidc-provider/src/interaction-bridge.ts:256-259 | the grant gains exactly the scopes listed if and only if each is a single non-empty word |
| InteractionBridge.OIDCInteractionBridge.CompleteLogin | packages/oidc-provider/src/interaction-bridge.ts:147-172 | the login step: interaction, then gate; refusal resolves the request, a missing login throws |
| InteractionBridge.OIDCInteractionBridge.CompleteConsent | packages/oidc-provider/src/interaction-bridge.ts:193-272 | the consent step with its checks in order, the grant built in place and saved, and the audit entry, whatever the audit service does |
| InteractionBridge.OIDCInteractionBridge.Add | packages/oidc-provider/src/interaction-bridge.ts:256-266 | the in-place additions come to the specified grant, whatever the number of resources |
| InteractionBridge.OIDCInteractionBridge.AbortInteraction | packages/oidc-provider/src/interaction-bridge.ts:283-293 | aborting resolves a pending request and reports a missing one |
| InteractionBridge.OIDCInteractionBridge.Audit | packages/oidc-provider/src/interaction-bridge.ts:314-355 | an entry is kept if and only if there is a service, somebody to attribute it to, and the write succeeds; the promise left behind is never a rejected one |
| Manifests.BumpCarries | scripts/publish.js:92-130 | after a bump the manifest and every internal dependency and peer range carry the new version, and nothing else has changed |
| Manifests.RangesOf | scripts/publish.js:68-130 | `workspace:~` becomes `~` and any other workspace reference `^`, a plain range keeps its mark when bumped and stays as it is when resolved, in both tables, and dependencies from elsewhere never change |
| Manifests.ResolveAfterBump | scripts/publish.js:68-130 | no `workspace:` is left after a bump, and resolving is then a no-op, for every manifest if and only if the version does not itself start with `workspace:` |
| Manifests.BumpAfterResolve | scripts/publish.js:68-130 | resolving leaves no `workspace:` whatever the version, and a later bump does not see the difference |
| Manifests.BumpTwice | scripts/publish.js:92-130 | bumping to one version and then another equals bumping to the second, for every manifest, if and only if the first starts with none of `^`, `~` and `workspace:` |
| Manifests.IncrementPlain | scripts/publish.js:53-61 | the next version of `major.minor.patch` is the one with the patch, or with the minor and patch zero, as numbers |
| Manifests.PlainVersionsBump | scripts/publish.js:53-61 | a plain version meets the conditions of the two if-and-only-ifs above |
| Publishing.AttemptsAll | scripts/publish.js:367-412 | exactly the packages found are attempted, and lists without duplicates make one attempt each |
| Publishing.ExactlyOnce | scripts/publish.js:28-51 | every set of packages is attempted once each if and only if the release list has no duplicates |
| Publishing.ReleaseOnce | scripts/publish.js:28-51 | any set of packages is attempted once each by the script's own list |
| Publishing.AttemptOrder | scripts/publish.js:367-412 | listed packages come in list order before all others, and those as found |
| Reruns.RerunSucceeds | scripts/publish.js:376-409 | a second attempt reports no failure if and only if every package that is there is a listed one and the error's text says so |
| Reruns.RerunFails | scripts/publish.js:197-200 | as npm is run, with inherited output, a second attempt reports no failure if and only if no package was published before, for every tag that does not hold the words looked for |
| Reruns.CommandSays | scripts/publish.js:380-381 | the failed command's own message holds those words if and only if the tag does |
| Publishing.FinalPublishable | scripts/publish.js:163-175 | outside a dry run every package is published without `workspace:` references, and after a bump the resolve step changed nothing |
| Publishing.FinalExactly | scripts/publish.js:92-183 | what each mode makes of a manifest: nothing in a dry run, its own version with resolved references without a bump, else the new version with every internal range bumped and resolved |
| Publishing.FailsExactly | scripts/publish.js:376-409 | an attempt fails if and only if its command did, unless the package is listed and the error output, or the message without any, holds one of the two phrases looked for |
| Publishing.Release.UpdatePackageVersion | scripts/publish.js:92-130 | one manifest becomes its bumped self, by in-place loops over its tables |
| Publishing.Release.UpdateVersions | scripts/publish.js:326-339 | the bump loop over all packages, skipped as a whole under either flag |
| Publishing.Release.PublishAll | scripts/publish.js:364-412 | both publish loops: attempts, tallies and manifests after any prefix are those specified |
| Publishing.Release.Run | scripts/publish.js:326-412 | after a release every manifest is its final self, the attempts are the specified ones, and successes plus failures equal the number of packages |
| Publishing.PublishRelease | scripts/publish.js:28-412 | the same for the release with the script's own list, nothing assumed of the list |

## Left out

- RateLimit.ClientIp: takes the first value of a repeated forwarding header as given.
- Manifests.IncrementVersion: reads the leading digits of a part; JavaScript's `parseInt` also skips white space, accepts a sign and rounds above 2^53.
- RefreshInterceptor.Interceptor.Finish: the end of a refresh reaches all waiters in one step; RxJS delivers the token to them before it resets the shared variables, within the same task.
- The CSRF header and cookie, redirects and server-side rendering in the interceptor, and a manual `refreshTokens` call that shares its request with the interceptor's.
- The Redis and database storage adapters: pattern escaping, increments in several commands, other roundings of the remaining time.
- The in-memory store's `nx` option, hash and list operations, and an expiry at time zero, which it takes for none.
- Defaults filled into partly given rate limits, the 429 response's body and headers beyond `retry-after`.
- `getState` of the bridge, the request and scope details of audit entries, and what the provider does with a recorded result.
- ConsumeRace.RemovedComesBack: speaks of some time after the removal; the artifact written back may then expire or be removed again.
- The separate manifest of the Angular client's build output, an error before npm is called, the lockfile, the build, the changelog check and the prompts of the release script.
- Injecting the script element and its readiness callback: an injection succeeds or fails once.
- `find-account.ts`, mounting, module loading and the framework wiring: settled by reading single branches, or foreign code.
