# Verified model of the Rossoctl operator and token broker

A Dafny 4.11 model of the parts of this repository whose correctness depends on
whole runs or on recursion, with proofs. `dafny verify dfyconfig.toml` checks
everything. Nothing here executes the Go programs.

## What is modelled

**Token broker** (`token-broker/internal`). `SessionStore` is the session table as
values, `SessionManager` the mutable manager and its channel semaphore proved equal to
it. `TokenCache` is the nested token map with its cleanup loops. `Broker` is the
acquisition protocol as interleaved steps: any number of `AcquireToken` calls, each
with a program counter, session objects with their semaphore channel and
`ActiveOAuthTx` pointer, callbacks, session ends, timers, cache cleanups and a clock.
`BrokerOwnership`, `BrokerProvenance` and `BrokerSingleFlight` prove what every run
keeps; `BrokerRebinding` has the runs behind the conditions of the last two.
`JwtExpiry` is the token expiry parser and `Base64` its decoder, unpadded base64url
(section 5 of RFC 4648).

**Bundle service** (`operator/internal/bundleservice`). `BundleLru` is the LRU and TTL
cache as a recency list, `BundleCaches` the three mutable caches, `Policies` the bytes
behind the ETag and the three tiers, `Identity` the SPIFFE identity and the cache key.
`BundleService` is the service as a step system over the informer's store, a queue of
undelivered events and the caches; `BundleCoherence` proves coherence over every run,
`BundleStale` that every object or update outside its assumptions has a stale run;
`BundleProvider` is the provider and its watcher with their loops, proved equal to the
steps of `BundleService`.

**Agent card signatures** (`operator/internal/signature`). `Json` is a
character-level JSON printer with sorted keys and Go's string escapes, and an
independent parser. `CanonicalCard` is the cleaning of empty fields and the signing
payload. `Ecdsa` is the fixed-width R || S encoding (section 3.4 of RFC 7518).
`Signing` is signing and single-signature verification (section 5 of RFC 7515),
`SigningConsistency` shows that its assumptions can be met, and `X5c` is the
verification of a signature list through certificate chains (section 4.1.6 of
RFC 7515) and the trust bundle refresh.

**Controllers** (`operator/internal/controller`). `VerifiedLabel` is the label that
aggregates per-card annotations under optimistic concurrency, `Resign` the restart
decision for re-signing, `SpecMerge` the spec merge of the SPIRE operands on values and
`MergeInPlace` the merge on mutable maps, proved equal to it.

Hashing, RSA, ECDSA, base64, PEM, certificate parsing, chain building, URL parsing,
JSON decoding of the protected header and the archive builder are functions passed in;
what is assumed of them is a named predicate (`Signing.Correct`, `X5c.CorrectCerts`,
`Policies.CollisionFree`, `JwtExpiry.RefusesPadding`). Randomness, clocks, map
iteration order, the indexer's order and the outcome of network calls are parameters of
the steps and are quantified over.

## Where the code and its promises disagree

Each of these is kept as the code has it, with a lemma that gives the exact condition
and, where the failure is not plain from that, one that exhibits an input.

- `CreateSession` accepts a key that is live, so the per-user index stays the inverse of
  the session map exactly as long as no creation reuses a live key
  (`IndexExactExactlyWithoutReuse`), and a late timer callback ends the session it was
  armed for exactly when no session was created under its key since
  (`CallbackEndsItsOwnExactly`, `ReusedKeyLetsOldTimerEndNewSession`).
- A reused key has a second semaphore, so two flows can run for it at once
  (`ReusedKeyRunsTwoFlows`); for a key that is never reused they cannot
  (`OneFlowAtATime`, `SecondFlowOnlyAfterExpiry`).
- Ending a session keeps its cached tokens, so a key that is given to another user hands
  that user the first user's token (`ReboundKeyHandsOverToken`); for a key that is never
  rebound the token is the caller's own (`ReturnedTokenHasProvenance`).
- `ParseJWTExpiry` pads the payload and then uses an unpadded decoder, so `exp` is
  honoured exactly for claims whose JSON text is a multiple of three bytes long; other
  tokens are cached for a year (`ExpiryHonouredExactlyForWholeGroups`,
  `ExpiredJwtCachedForAYear`).
- A global AuthorizationPolicy outside the service namespace is served to the client of
  the same name, but its events invalidate nothing
  (`OwnEventCoversExactlyWhenWellScoped`, `StrayObjectGoesStale`); an update that changes
  an object's scope is announced by the new scope only (`UpdateEventCoversExactly`,
  `ScopeChangeGoesStale`).
- Every policy list with a NUL byte shares its ETag bytes with a list of other policies
  (`NulAlwaysCollides`); among lists without one equal bytes mean equal policies
  (`SameBytesSamePolicies`). The bytes of one list depend on how the sort orders equal
  paths exactly when a path carries two contents (`OneTagExactlyWhenUnambiguous`).
- The signature provider documents success when at least one signature verifies. The loop
  gives up at the first parseable chain that fails (`GoodSignatureRefused`,
  `RefusedListExists`, `OneGoodSignatureSufficesExactly`).
- The re-sign check documents a restart when either of two conditions holds. A changed
  trust bundle is ignored while an already handled leaf certificate is expiring
  (`RotationIgnored`, `EitherConditionRestartsExactly`).
- Restarts are bounded by distinct leaf expiries only when observed expiries never
  decrease; two cards with different leaves on one workload can restart it without end
  (`AlternatingLeavesKeepRestarting`, `RestartBound`).

## Model

| member | source | states |
|---|---|---|
| `SessionStore.TeardownSafety` | token-broker/internal/session/manager.go:157-338 | In every run, whatever keys are reused, no `Done` channel is closed twice, every session in the map is open, every timer key is live, and with a positive cap every live session is listed under its owner. |
| `SessionStore.ShutdownEmptiesEverything` | token-broker/internal/session/manager.go:317-338 | After `Shutdown` the session and timer maps are empty and every session it found is closed. |
| `SessionStore.CapHoldsExactlyWhenPositive` | token-broker/internal/session/manager.go:40-85 | No run gives a user more live sessions than the cap, even with reused keys, exactly when the cap is positive. |
| `SessionStore.CreateKeepsInverseExactlyOnFreshKey` | token-broker/internal/session/manager.go:40-77 | A successful creation keeps `userSessions` the exact inverse of `sessions` if and only if its key was not live. |
| `SessionStore.IndexExactExactlyWithoutReuse` | token-broker/internal/session/manager.go:40-262 | Over a whole run the index is the exact duplicate-free inverse at every point if and only if no creation reused a live key. |
| `SessionStore.ListLengthsAddUp` | token-broker/internal/session/manager.go:194-262 | When the index is exact its list lengths sum to the number of sessions. |
| `SessionStore.CallbackEndsItsOwnExactly` | token-broker/internal/session/manager.go:176-190 | In every run and for every started timer callback, in whatever order callbacks take the lock: a key that is gone changes nothing but the callback queue; a live key is ended, and it is the session the timer was armed for exactly when no session was created under the key since. |
| `SessionStore.RunKeepsNewest` | token-broker/internal/session/manager.go:40-85 | In every run each key points at the newest session object made for it. |
| `SessionStore.ReusedKeyLetsOldTimerEndNewSession` | token-broker/internal/session/manager.go:265-314 | With a reused key a callback of the old session ends the new one: a concrete run. |
| `SessionManager.SimpleSemaphore.Acquire` | token-broker/internal/session/semaphore.go:22-29 | Acquiring appends to the channel only when there is room; with a done context it may refuse. |
| `SessionManager.SimpleSemaphore.Release` | token-broker/internal/session/semaphore.go:32-38 | Releasing removes one element when there is one and otherwise changes nothing. |
| `SessionManager.SimpleSemaphore.TryAcquire` | token-broker/internal/session/semaphore.go:42-49 | Succeeds exactly when the channel has room. |
| `SessionManager.SessionManager.CreateSession` | token-broker/internal/session/manager.go:40-85 | The new tables are those of the specification step; it fails exactly when the user's list is at the cap. |
| `SessionManager.SessionManager.GetSession` | token-broker/internal/session/manager.go:88-98 | Returns exactly the session object stored under the key, which is open and was created under it; none for an unknown key. |
| `SessionManager.SessionManager.ValidateSession` | token-broker/internal/session/manager.go:136-154 | Succeeds exactly when the key is live and owned by the user. |
| `SessionManager.SessionManager.CloseDone` | token-broker/internal/session/manager.go:194-262 | Closes a channel that its caller shows to be open. |
| `SessionManager.SessionManager.WithoutKey` | token-broker/internal/session/manager.go:194-262 | The filtering loop drops exactly the key. |
| `SessionManager.SessionManager.CleanupSessionLocked` | token-broker/internal/session/manager.go:194-262 | Stops the timer, closes `Done`, removes the key from both maps and drops an empty list: the specification's cleanup. |
| `SessionManager.SessionManager.EndSession` | token-broker/internal/session/manager.go:157-173 | Ends a live session; an unknown key is an error that changes nothing. |
| `SessionManager.SessionManager.ResetSessionTimer` | token-broker/internal/session/manager.go:265-287 | Stops and drops the timer of a live session; an unknown key changes nothing. |
| `SessionManager.SessionManager.StartSessionTimer` | token-broker/internal/session/manager.go:290-314 | Arms a timer for a live session. |
| `SessionManager.SessionManager.CleanupEverySession` | token-broker/internal/session/manager.go:317-338 | The loop cleans every session once, in whatever order the map yields them. |
| `SessionManager.SessionManager.CleanupOne` | token-broker/internal/session/manager.go:332-335 | One pass of that loop extends the specification's cleanup by one session. |
| `SessionManager.SessionManager.Shutdown` | token-broker/internal/session/manager.go:317-338 | The tables afterwards are those of the specification's shutdown. |
| `SessionManager.SessionManager.LastDot` | token-broker/internal/session/manager.go:103-133 | The scan finds the last dot of a state, -1 when there is none. |
| `SessionManager.SessionManager.GetSessionCount` | token-broker/internal/session/manager.go:341-345 | The number of live sessions, which is the total of the per-user lists when the index is exact. |
| `SessionManager.SessionManager.GetUserSessionCount` | token-broker/internal/session/manager.go:348-355 | The length of the user's list. |
| `TokenCache.Put` | token-broker/internal/cache/token_cache.go:69-98 | Storing changes exactly one entry and keeps inner maps nonempty. |
| `TokenCache.Delete` | token-broker/internal/cache/token_cache.go:101-116 | Deleting removes exactly one entry and leaves no empty inner map. |
| `TokenCache.Cleanup` | token-broker/internal/cache/token_cache.go:143-170 | What is left is exactly the unexpired entries, with no empty inner map. |
| `TokenCache.CleanupIsInvisible` | token-broker/internal/cache/token_cache.go:36-170 | For every cache, clock and later sequence of puts, deletes, cleanups and waits, every `GetToken` answers as if the cleanup had not run. |
| `TokenCache.TokenCache.GetToken` | token-broker/internal/cache/token_cache.go:36-66 | Returns the stored token exactly when it is neither expired nor within five minutes of it. |
| `TokenCache.TokenCache.SetToken` | token-broker/internal/cache/token_cache.go:69-98 | The map becomes the specification's put. |
| `TokenCache.TokenCache.DeleteToken` | token-broker/internal/cache/token_cache.go:101-116 | The map becomes the specification's delete. |
| `TokenCache.TokenCache.GetCacheSize` | token-broker/internal/cache/token_cache.go:119-128 | Counts every stored pair. |
| `TokenCache.TokenCache.CleanupExpiredTokens` | token-broker/internal/cache/token_cache.go:143-170 | The nested deletion loops leave exactly the unexpired entries; the returned count plus the new size is the old size. |
| `TokenCache.TokenCache.CleanupInner` | token-broker/internal/cache/token_cache.go:143-170 | The inner loop keeps exactly one session's unexpired tokens and counts the rest. |
| `JwtExpiry.ExpiryHonouredExactlyWithoutPadding` | token-broker/internal/cache/jwt_parser.go:18-61 | For every JWT that claims an expiry, the claim is used exactly when the payload length needs no padding; otherwise the token lives a year. |
| `JwtExpiry.PaddedJwtOutlivesItsClaim` | token-broker/internal/cache/jwt_parser.go:18-78 | For every decoder that refuses padding, a token whose payload needs padding is taken for unexpired whatever it claims. |
| `JwtExpiry.ExpiryHonouredExactlyForWholeGroups` | token-broker/internal/cache/jwt_parser.go:18-61 | With the decoder the code uses, the claimed expiry is used exactly when the claims are a multiple of three bytes long; otherwise the token lives a year. |
| `JwtExpiry.ExpiredJwtCachedForAYear` | token-broker/internal/cache/jwt_parser.go:18-78 | A real token with the claims `{"exp":50}` is still treated as unexpired. |
| `Base64.DecodeUndoesEncode` | token-broker/internal/cache/jwt_parser.go:37-38 | The unpadded base64url decoder reads back every encoded byte string. |
| `Base64.PaddingRefused` | token-broker/internal/cache/jwt_parser.go:30-38 | The unpadded decoder refuses every text with a padding character. |
| `Base64.Encode` | token-broker/internal/cache/jwt_parser.go:27-35 | An encoded text needs padding exactly when the bytes are no whole number of groups, and holds no dot. |
| `BrokerOwnership.SemaphoreCountsHolders` | token-broker/internal/core/broker.go:76-79 | In every interleaving, for each session object the channel length equals the number of calls between acquire and release and is at most one. |
| `BrokerOwnership.CriticalSectionIsOwned` | token-broker/internal/core/broker.go:110-271 | A releasing call finds its own element in the channel, and from storing to clearing it a flow finds its own non-nil `ActiveOAuthTx`. |
| `BrokerOwnership.NeverPanics` | token-broker/internal/core/broker.go:140-268 | No run dereferences a nil `ActiveOAuthTx`. |
| `BrokerOwnership.OwnedRun` | token-broker/internal/core/broker.go:47-310 | The ownership invariant holds in every reachable state. |
| `BrokerProvenance.StateRoundTrip` | token-broker/internal/session/manager.go:103-133 | Splitting `sessionKey.nonce` at its last dot recovers every session key, also one with dots, when the nonce has none. |
| `BrokerProvenance.ReturnedTokenHasProvenance` | token-broker/internal/core/broker.go:47-310 | Every token a call returns was exchanged in a flow for the same key and resource, with a code delivered for that flow's own state, and by the same user when that key is never rebound. |
| `BrokerProvenance.CallbackReachesItsFlow` | token-broker/internal/api/handlers.go:408-422 | A callback with a waiting flow's state reaches that flow while its session is live. |
| `BrokerProvenance.TracedRun` | token-broker/internal/core/broker.go:47-310 | The provenance invariant holds in every reachable state. |
| `BrokerRebinding.ReboundKeyHandsOverToken` | token-broker/internal/session/manager.go:40-85 | For every key, resource and two users there is a run that rebinds the key and returns the first user's token to the second. |
| `BrokerRebinding.ReusedKeyRunsTwoFlows` | token-broker/internal/session/manager.go:40-85 | For every key and resource there is a run that reuses the key and has two flows for it under way at once. |
| `BrokerSingleFlight.SecondFlowOnlyAfterExpiry` | token-broker/internal/core/broker.go:47-106 | For a session key that is never reused, whatever happens to other keys, a second successful flow for the same session and resource misses the cache only after the first flow's token is stored and is expired or within five minutes of it. |
| `BrokerSingleFlight.OneFlowAtATime` | token-broker/internal/core/broker.go:47-106 | At any moment at most one call per session key that is never reused is running a flow. |
| `BrokerSingleFlight.SingleFlightRun` | token-broker/internal/core/broker.go:241-249 | The spacing invariant holds in every reachable state. |
| `Identity.ParseExactlyPrinted` | operator/internal/bundleservice/spiffeid/spiffeid.go:16-45 | A string parses to an identity exactly when the identity is well formed and the string is its printed form. |
| `Identity.FromRequest` | operator/internal/bundleservice/identity/identity.go:31-46 | A request is accepted exactly when its value is a well-formed identity's printed form, with that identity's namespace and name. |
| `Identity.CacheKeyInjective` | operator/internal/bundleservice/identity/identity.go:20-22 | Parsed identities share a cache key exactly when they are equal. |
| `Policies.SortIsUnique` | operator/internal/bundleservice/bundle/hash.go:10-28 | When no path carries two contents there is one way to sort. |
| `Policies.EncodeInjective` | operator/internal/bundleservice/bundle/hash.go:10-28 | Without NUL bytes the hashed bytes determine the list. |
| `Policies.NulBreaksEncoding` | operator/internal/bundleservice/bundle/hash.go:10-28 | Two different lists with the same bytes when a content holds a NUL. |
| `Policies.NulAlwaysCollides` | operator/internal/bundleservice/bundle/hash.go:10-28 | Every list with a NUL byte shares its bytes with a list of other policies. |
| `Policies.SameBytesSamePolicies` | operator/internal/bundleservice/bundle/hash.go:10-28 | Without NUL bytes equal bytes mean equal policies, also when paths repeat. |
| `Policies.OneTagExactlyWhenUnambiguous` | operator/internal/bundleservice/bundle/hash.go:10-28 | However the sort orders equal paths the bytes are the same, exactly when no path carries two contents. |
| `Policies.BytesAreCanonical` | operator/internal/bundleservice/bundle/hash.go:10-28 | Without NUL bytes and with one content per path, sorted lists give the same bytes exactly when they hold the same policies. |
| `Policies.WriteAll` | operator/internal/bundleservice/bundle/hash.go:10-28 | The loop feeds the hasher exactly the encoding of the sorted list. |
| `Policies.ContentHash` | operator/internal/bundleservice/bundle/hash.go:10-28 | The hash is that of the sorted list; the empty list has its own constant. |
| `Policies.HashIsInjective` | operator/internal/bundleservice/bundle/hash.go:10-28 | Under a collision-free hash, equal ETags mean equal bytes. |
| `Policies.TiersApart` | operator/internal/bundleservice/provider/provider.go:86-116 | A path under one tier's prefix is under no other's. |
| `Policies.GatherKeepsTiersApart` | operator/internal/bundleservice/provider/provider.go:86-116 | The gathered policies determine each tier's policies. |
| `Policies.GatherPermutes` | operator/internal/bundleservice/provider/provider.go:86-116 | Permuting the tiers permutes the gathered list. |
| `BundleLru.RunKeeps` | operator/internal/bundleservice/cache/bundle.go:44-130 | In every run the recency list has distinct keys and at most `maxEntries` of them. |
| `BundleLru.TouchedEntryStaysCached` | operator/internal/bundleservice/cache/bundle.go:44-130 | A just touched entry stays cached, unchanged, while fewer than `maxEntries` other keys are touched since its last touch; reads of it count as touches. |
| `BundleLru.GetReturnsLastSet` | operator/internal/bundleservice/cache/bundle.go:44-85 | `Get` returns what `Set` stored, after any reads of it and other operations, while it is recent and unexpired. |
| `BundleLru.HitIsLastSet` | operator/internal/bundleservice/cache/bundle.go:44-130 | In every run from the empty cache a hit returns what the last `Set` of its key stored, unexpired and not invalidated since. |
| `BundleLru.SurvivesExactlyWhileRecent` | operator/internal/bundleservice/cache/bundle.go:44-130 | In runs without invalidation and expiry an entry survives exactly while, at every point, fewer than `maxEntries` distinct other keys were touched since its last touch. |
| `BundleCaches.BundleCache.Get` | operator/internal/bundleservice/cache/bundle.go:44-58 | Map and list stay linked; a hit moves to the front, an expired entry is removed. |
| `BundleCaches.BundleCache.Set` | operator/internal/bundleservice/cache/bundle.go:60-85 | Map and list stay linked and the list becomes the specification's. |
| `BundleCaches.BundleCache.PushFront` | operator/internal/bundleservice/cache/bundle.go:60-85 | A new entry goes in front and the least recent one out when the list is too long. |
| `BundleCaches.BundleCache.RemoveLRU` | operator/internal/bundleservice/cache/bundle.go:119-124 | Removes exactly the last element and its key. |
| `BundleCaches.BundleCache.RemoveElement` | operator/internal/bundleservice/cache/bundle.go:126-130 | Removes the element from list and map. |
| `BundleCaches.BundleCache.Invalidate` | operator/internal/bundleservice/cache/bundle.go:87-93 | Removes exactly the key. |
| `BundleCaches.BundleCache.InvalidateAll` | operator/internal/bundleservice/cache/bundle.go:95-100 | Empties list and map. |
| `BundleCaches.ETagCache.Get` | operator/internal/bundleservice/cache/etag.go:16-21 | Finds the hash stored under the key. |
| `BundleCaches.ETagCache.Set` | operator/internal/bundleservice/cache/etag.go:23-27 | Stores one hash. |
| `BundleCaches.ETagCache.Invalidate` | operator/internal/bundleservice/cache/etag.go:29-33 | Removes one key. |
| `BundleCaches.ETagCache.InvalidateAll` | operator/internal/bundleservice/cache/etag.go:35-39 | Empties the map. |
| `BundleCaches.PolicyCache.SetGlobal` | operator/internal/bundleservice/cache/policy.go:36-40 | Stores the global tier and keeps the namespaces. |
| `BundleCaches.PolicyCache.InvalidateGlobal` | operator/internal/bundleservice/cache/policy.go:42-46 | Forgets the global tier and keeps the namespaces. |
| `BundleCaches.PolicyCache.SetNamespace` | operator/internal/bundleservice/cache/policy.go:58-62 | Stores one namespace tier and keeps the rest. |
| `BundleCaches.PolicyCache.InvalidateNamespace` | operator/internal/bundleservice/cache/policy.go:64-68 | Forgets one namespace tier and keeps the rest. |
| `BundleService.InvalidateRemovesExactly` | operator/internal/bundleservice/watcher/watcher.go:141-184 | Delivering an event removes exactly the policy, ETag and bundle entries its scope reaches. |
| `BundleService.OwnEventCoversExactlyWhenWellScoped` | operator/internal/bundleservice/watcher/watcher.go:125-184 | An object's own event reaches everything the object influences exactly when its scope is known and a global object is in the service namespace. |
| `BundleService.UpdateEventCoversExactly` | operator/internal/bundleservice/watcher/watcher.go:57-61 | An update's event reaches what the old object influenced exactly when the scope is kept or the old scope was `client`. |
| `BundleCoherence.CoherentRun` | operator/internal/bundleservice/provider/provider.go:46-184 | Over every run of store changes, delayed deliveries, expiries and requests, a cache entry that differs from a fresh build has an undelivered event that removes it. |
| `BundleCoherence.DrainedMeansFresh` | operator/internal/bundleservice/provider/provider.go:46-184 | With the queue drained every policy, ETag and bundle entry is what a fresh build gives. |
| `BundleCoherence.FreshListsAgree` | operator/internal/bundleservice/provider/provider.go:81-116 | Two fresh builds over one store hold the same policies, whatever order the index yields. |
| `BundleCoherence.NotModifiedMeansUpToDate` | operator/internal/bundleservice/provider/provider.go:46-54 | A 304 answer with the queue drained means the client's list holds exactly the policies a fresh build would, for a collision-free hash and policies without NUL bytes. |
| `BundleStale.StrayObjectGoesStale` | operator/internal/bundleservice/watcher/watcher.go:159-163 | Every object that is not well scoped has a run that ends with no event pending and a cached ETag no fresh build gives, which is answered 304. |
| `BundleStale.ScopeChangeGoesStale` | operator/internal/bundleservice/watcher/watcher.go:57-61 | Every update that leaves the global or a namespace scope has a run that ends with no event pending and the old tier still cached. |
| `BundleProvider.Provider.Invalidate` | operator/internal/bundleservice/watcher/watcher.go:141-184 | The three caches afterwards are those of the specification's delivery. |
| `BundleProvider.Provider.ListGlobal` | operator/internal/bundleservice/watcher/watcher.go:81-102 | The loop lists each global object of the service namespace once and nothing else. |
| `BundleProvider.Provider.ListNamespace` | operator/internal/bundleservice/watcher/watcher.go:105-122 | The loop lists each namespace object of the namespace once and nothing else. |
| `BundleProvider.Provider.ExtractPolicies` | operator/internal/bundleservice/provider/provider.go:186-199 | The policies of the convertible objects, in order. |
| `BundleProvider.Provider.GetGlobalPolicies` | operator/internal/bundleservice/provider/provider.go:140-150 | The cached tier, or a fresh extraction that is then cached. |
| `BundleProvider.Provider.GetNamespacePolicies` | operator/internal/bundleservice/provider/provider.go:152-162 | The cached tier, or a fresh extraction that is then cached. |
| `BundleProvider.Provider.AppendTier` | operator/internal/bundleservice/provider/provider.go:86-116 | The loop appends the tier with its prefix. |
| `BundleProvider.Provider.GatherPolicies` | operator/internal/bundleservice/provider/provider.go:81-116 | Both shared tiers are cached and the three tiers gathered; an inconvertible client object is an error. |
| `BundleProvider.Provider.Concatenate` | operator/internal/bundleservice/provider/provider.go:86-116 | The three append loops together gather the prefixed tiers. |
| `BundleProvider.Provider.Store` | operator/internal/bundleservice/provider/provider.go:118-137 | Sets the ETag before archiving, and caches the bundle only when the archive succeeds. |
| `BundleProvider.Provider.BuildBundle` | operator/internal/bundleservice/provider/provider.go:81-138 | Reply and caches are those of the specification's build. |
| `BundleProvider.Provider.GetBundle` | operator/internal/bundleservice/provider/provider.go:46-79 | Reply and caches are those of the specification's request. |
| `Json.ParseUndoesPrint` | operator/internal/signature/verifier.go:412-473 | For every JSON tree, parsing the printed text returns the tree, whatever delimiter follows. |
| `Json.PrintInjective` | operator/internal/signature/verifier.go:412-473 | Trees with the same canonical text are equal. |
| `Json.ParseEscape` | operator/internal/signature/verifier.go:428-434 | Every character is read back from its escape. |
| `Json.ParseQuote` | operator/internal/signature/verifier.go:428-434 | Every string literal is read back. |
| `CanonicalCard.DroppedExactlyWhenBlank` | operator/internal/signature/verifier.go:345-386 | A member is dropped exactly when it holds nothing but nulls, empty strings and empty containers. |
| `CanonicalCard.CleanedIsCompact` | operator/internal/signature/verifier.go:345-386 | A cleaned tree holds no empty field. |
| `CanonicalCard.CleanReachesFixpoint` | operator/internal/signature/verifier.go:345-386 | Cleaning is idempotent and its fixed points are exactly the trees without empty fields. |
| `CanonicalCard.LookupCommutes` | operator/internal/signature/verifier.go:345-386 | At every path of object keys the cleaned tree holds exactly the cleaned value of the original, arrays included. |
| `CanonicalCard.PayloadEqualExactlyWhenTreesEqual` | operator/internal/signature/verifier.go:326-341 | Two cards have the same signing payload exactly when their cleaned, signature-free trees are equal. |
| `CanonicalCard.PayloadIgnoresSignatures` | operator/internal/signature/verifier.go:338-341 | The payload does not depend on the `signatures` member. |
| `CanonicalCard.PayloadFixesEveryPath` | operator/internal/signature/verifier.go:326-341 | Two cards have the same payload exactly when at every path outside `signatures` they hold the same value up to cleaning. |
| `CanonicalCard.RemoveEmptyFields` | operator/internal/signature/verifier.go:345-386 | The recursive loops compute the cleaned object for every map order. |
| `CanonicalCard.RemoveEmptyItems` | operator/internal/signature/verifier.go:356-376 | The array loop keeps the cleaned elements in order and nested arrays as they are. |
| `CanonicalCard.SortKeys` | operator/internal/signature/verifier.go:391-395 | The keys in increasing order, each once. |
| `CanonicalCard.MarshalCanonical` | operator/internal/signature/verifier.go:388-415 | Prints an object with sorted keys. |
| `CanonicalCard.MarshalFields` | operator/internal/signature/verifier.go:397-412 | The loop writes the members with commas between them. |
| `CanonicalCard.MarshalField` | operator/internal/signature/verifier.go:402-411 | One member: quoted key, colon, value. |
| `CanonicalCard.MarshalValue` | operator/internal/signature/verifier.go:417-442 | Prints any value. |
| `CanonicalCard.MarshalArray` | operator/internal/signature/verifier.go:457-473 | The loop writes the elements with commas between them. |
| `CanonicalCard.CreateCanonicalCardJSON` | operator/internal/signature/verifier.go:326-341 | The loops together compute the payload. |
| `Ecdsa.Bytes` | operator/internal/signature/signer.go:164-165 | Minimal big-endian bytes: no leading zero, and the same number when read back. |
| `Ecdsa.FitsInByteSize` | operator/internal/signature/signer.go:162-167 | A number below 2^bits fits into ceil(bits/8) bytes, for every bit size. |
| `Ecdsa.Pad` | operator/internal/signature/signer.go:166-167 | Right alignment keeps the number and fills the width. |
| `Ecdsa.RawRoundTrip` | operator/internal/signature/verifier.go:205-214 | For every bit size and r, s below 2^bits, splitting the buffer in half recovers r and s. |
| `Ecdsa.RawOnto` | operator/internal/signature/verifier.go:205-214 | Every buffer of the right length encodes what it decodes to. |
| `Ecdsa.CopyInto` | operator/internal/signature/signer.go:166-167 | A slice copy changes exactly its range. |
| `Ecdsa.FillSignature` | operator/internal/signature/signer.go:162-169 | The two copies stay in bounds, do not overlap and produce R followed by S. |
| `Signing.AlgorithmForKey` | operator/internal/signature/signer.go:100-121 | The chosen algorithm passes every verifier check for the key, and a key gets none exactly when no signing algorithm would. |
| `Signing.HeaderTextParses` | operator/internal/signature/verifier.go:58-64 | The header's JSON text parses to exactly its nonempty members. |
| `Signing.HeaderFieldsInjective` | operator/internal/signature/verifier.go:39-44 | Omitting empty header members loses nothing. |
| `Signing.SigningInputUnambiguous` | operator/internal/signature/verifier.go:123-125 | Two signing inputs are equal exactly when the header texts and the cleaned signature-free trees are equal. |
| `Signing.SignCard` | operator/internal/signature/signer.go:36-97 | On success the card's signatures are replaced by the one new signature; on an error the card is unchanged. |
| `Signing.SignInput` | operator/internal/signature/signer.go:130-170 | RSA bytes or fixed-width R followed by S; an EC key not held in memory is an error. |
| `Signing.VerifyJWS` | operator/internal/signature/verifier.go:67-202 | Verified exactly when header, algorithm, key, curve and signature bytes check out and the key accepts the digest; an error exactly when one of the checks fails. |
| `Signing.SignThenVerify` | operator/internal/signature/signer.go:36-148 | Whatever `SignCard` produced verifies under the leaf's public key on the card that now carries it, for every card and accepted key. |
| `Signing.SignerIsAccepted` | operator/internal/signature/verifier.go:147-182 | The signer's hash and encoding are the verifier's. |
| `Signing.SignFailsExactly` | operator/internal/signature/signer.go:130-170 | For an accepted key signing fails exactly where the key's own operation does, or when an EC key is not held in memory. |
| `SigningConsistency.AssumptionsAreConsistent` | operator/internal/signature/signer.go:36-148 | The assumptions of `SignThenVerify` can be met: some library satisfies all of them and signs every card with every accepted in-memory key and nonempty chain. |
| `SigningConsistency.LibraryIsCorrect` | operator/internal/signature/signer.go:36-148 | A concrete library satisfies every assumption about hashing, RSA, ECDSA, base64, PEM and the header codec. |
| `X5c.ExtractSpiffeId` | operator/internal/signature/x5c.go:237-262 | Succeeds exactly when the leaf has exactly one spiffe URI and it names a trust domain, and returns that URI. |
| `X5c.SpiffeIdIsUnique` | operator/internal/signature/x5c.go:237-262 | A leaf has at most one SPIFFE ID. |
| `X5c.Certs` | operator/internal/signature/x5c.go:264-279 | All certificates of the list in order, or none when one does not parse. |
| `X5c.CheckSignature` | operator/internal/signature/x5c.go:146-194 | One pass of the loop gives up exactly on a parseable chain that fails chain or SAN validation and accepts exactly a signature that fully verifies. |
| `X5c.VerifySignatures` | operator/internal/signature/x5c.go:136-200 | Verified exactly when some signature fully verifies and every earlier parseable one passes chain and SAN validation; ID, expiry and key ID come from the first such signature. |
| `X5c.VerifiedAtFirst` | operator/internal/signature/x5c.go:146-200 | The first fully verifying signature decides. |
| `X5c.OneGoodSignatureSufficesExactly` | operator/internal/signature/provider.go:43-44 | One good signature suffices exactly when no earlier one makes the loop give up. |
| `X5c.OrderDecides` | operator/internal/signature/x5c.go:163-169 | The same two signatures verify in one order and not in the other. |
| `X5c.GoodSignatureRefused` | operator/internal/signature/provider.go:43-44 | With any correct library, a card signed first by a party with an untrusted chain and then by a trusted one is refused although the second signature fully verifies; in the other order it is verified. |
| `X5c.TrustedPartyFullyVerifies` | operator/internal/signature/x5c.go:146-194 | A trusted party's signature fully verifies whatever other signatures the card carries. |
| `SigningConsistency.RefusedListExists` | operator/internal/signature/provider.go:43-44 | Such a refused list exists for every card, with a library that meets every assumption. |
| `X5c.ChainReadsBack` | operator/internal/signature/signer.go:52-62 | The chain written by a signer is the chain a verifier reads. |
| `X5c.SignedCardIsVerified` | operator/internal/signature/x5c.go:136-200 | A card signed with a trusted leaf is verified through its chain, and the result carries the leaf's SPIFFE ID and expiry. |
| `X5c.X5CProvider.RefreshTrustBundle` | operator/internal/signature/x5c.go:323-373 | Roots and hash are replaced together by those of one usable document, or nothing changes. |
| `X5c.X5CProvider.MaybeRefreshTrustBundle` | operator/internal/signature/x5c.go:281-305 | A loaded bundle is never lost; after a check with a usable document it is younger than the interval or just loaded. |
| `X5c.X5CProvider.VerifySignature` | operator/internal/signature/x5c.go:136-200 | Verifies against the roots held after the refresh; without roots nothing verifies. |
| `VerifiedLabel.AggregateVerifiedState` | operator/internal/controller/agentcard_controller.go:1141-1152 | True exactly when some per-card annotation exists and all are "true". |
| `VerifiedLabel.ChangedIsRight` | operator/internal/controller/agentcard_controller.go:1117-1136 | A write sets its own card's verdict, no other card's, and the right label. |
| `VerifiedLabel.ChangedTouchesOnlyOurs` | operator/internal/controller/agentcard_controller.go:1117-1136 | A write leaves every other annotation and label alone; a propagate drops the deprecated annotation. |
| `VerifiedLabel.Workload.LabelCorrect` | operator/internal/controller/agentcard_controller.go:1108-1115 | The early-return test is exactly that the label is what the annotations call for. |
| `VerifiedLabel.Workload.SetLabel` | operator/internal/controller/agentcard_controller.go:1123-1128 | Sets or deletes the label by the aggregate. |
| `VerifiedLabel.Workload.PropagateAttempt` | operator/internal/controller/agentcard_controller.go:1092-1137 | One attempt writes exactly when the verdict or the label is not as desired, and changes the copy as specified. |
| `VerifiedLabel.Workload.CleanupAttempt` | operator/internal/controller/agentcard_controller.go:1274-1305 | One attempt writes exactly when the card's annotation exists, and changes the copy as specified. |
| `VerifiedLabel.NoVerdictIsLost` | operator/internal/controller/agentcard_controller.go:1078-1138 | In every interleaving of reads, compare-and-set writes, failures and foreign writes, each card's annotation is what its own last successful call left. |
| `VerifiedLabel.LabelRightExactlyAfterAWrite` | operator/internal/controller/agentcard_controller.go:1078-1152 | In every interleaving the label is right exactly when it was right at the start or some call has written since. |
| `VerifiedLabel.LabelRightAfterPropagate` | operator/internal/controller/agentcard_controller.go:1108-1136 | Whatever the label was at the start, it is right in every state after a propagate call has succeeded. |
| `VerifiedLabel.LabelIsConjunction` | operator/internal/controller/agentcard_controller.go:1078-1152 | In every interleaving, once the label was right or a propagate call succeeded, the label is "true" exactly when some card's last successful call left a verdict and all of them are "true". |
| `VerifiedLabel.PropagateRestoresLabel` | operator/internal/controller/agentcard_controller.go:1108-1136 | A propagate call that succeeds leaves the label right, whatever it was. |
| `VerifiedLabel.CleanupRestoresExactly` | operator/internal/controller/agentcard_controller.go:1282-1304 | A successful cleanup leaves the label right exactly when it wrote or the label was right. |
| `VerifiedLabel.RepeatWritesNothing` | operator/internal/controller/agentcard_controller.go:1108-1115 | Repeating a card's last successful call writes nothing, whatever the label was at the start and other cards did in between. |
| `VerifiedLabel.ConflictMeansProgress` | operator/internal/controller/agentcard_controller.go:1092-1137 | A write conflict means another write went through since the read. |
| `Resign.Stored.MaybeRestartForResign` | operator/internal/controller/agentcard_controller.go:1497-1572 | The in-place decision and annotations are those of the specification. |
| `Resign.Stored.TriggerRolloutRestart` | operator/internal/controller/agentcard_controller.go:1574-1602 | Sets trigger time and hash, and the leaf expiry unless it is the zero time. |
| `Resign.EitherConditionRestartsExactly` | operator/internal/controller/agentcard_controller.go:1491-1562 | Outside the cool-down either condition restarts exactly unless the expiring leaf was handled before. |
| `Resign.RotationIgnored` | operator/internal/controller/agentcard_controller.go:1539-1545 | A changed trust bundle without a restart: a concrete input. |
| `Resign.RotationIsNoticed` | operator/internal/controller/agentcard_controller.go:1550-1560 | Of two quiet reconciles the first records the hash and the second restarts exactly on a different one. |
| `Resign.RestartsAreApart` | operator/internal/controller/agentcard_controller.go:1525-1534 | With a monotone clock any two restarts are at least the grace period apart. |
| `Resign.RestartBound` | operator/internal/controller/agentcard_controller.go:1497-1620 | In every run restarts are at most the changes of the observed leaf expiry plus the changes of the bundle hash. |
| `Resign.RunsAreDistinctLeaves` | operator/internal/controller/agentcard_controller.go:1539-1548 | With nondecreasing expiries the changes of the leaf are the distinct leaves. |
| `Resign.RestartsBoundedByLeavesAndRotations` | operator/internal/controller/agentcard_controller.go:1497-1620 | With nondecreasing expiries restarts are at most the distinct leaf expiries plus the hash changes, for every grace period. |
| `Resign.AlternatingLeavesKeepRestarting` | operator/internal/controller/agentcard_controller.go:1539-1548 | Two expiries seen in turn restart the workload at every reconcile. |
| `SpecMerge.NamedPathsHoldOurs` | operator/internal/controller/spire_operand_controller.go:196-206 | Every leaf of our spec is in the merged spec at its path. |
| `SpecMerge.UnnamedPathsAreKept` | operator/internal/controller/spire_operand_controller.go:196-206 | Every path our spec does not name keeps its value. |
| `SpecMerge.EveryPathIsOneOfThree` | operator/internal/controller/spire_operand_controller.go:196-206 | A path is unnamed, below a leaf of ours, or leads to a value of ours. |
| `SpecMerge.MergeReachesFixpoint` | operator/internal/controller/spire_operand_controller.go:196-206 | The merge is idempotent and changes nothing exactly when our spec already holds. |
| `SpecMerge.ForeignChangesNeedNoWrite` | operator/internal/controller/spire_operand_controller.go:157-168 | After foreign changes to unnamed paths the next merge changes nothing. |
| `SpecMerge.MergeNeverFights` | operator/internal/controller/spire_operand_controller.go:139-191 | Over any history of foreign changes to unnamed paths no merge changes anything, for any spec. |
| `SpecMerge.ReconcileTexts` | operator/internal/controller/spire_operand_controller.go:95-111 | A reconcile keeps a set trust domain and cluster name; otherwise it leaves the configured ones, and the default cluster name when none is configured. |
| `SpecMerge.SetValuesNeverChange` | operator/internal/controller/spire_operand_controller.go:95-111 | Over every run, whatever is configured, a set trust domain or cluster name never changes. |
| `SpecMerge.NoFighting` | operator/internal/controller/spire_operand_controller.go:81-119 | After the first reconcile, whatever others do to members we do not manage, every later reconcile with the same configuration writes nothing. |
| `MergeInPlace.MergeNestedMap` | operator/internal/controller/spire_operand_controller.go:196-206 | On mutable maps, for every key order, the stored tree becomes the merge in place; our own tree and every other map are unchanged, and the result shares maps with ours at most below its top. |
| `MergeInPlace.MergeKey` | operator/internal/controller/spire_operand_controller.go:198-204 | One key: maps on both sides are merged in place, anything else of ours replaces what is there, and no other key changes. |
| `MergeInPlace.MergeNested` | operator/internal/controller/spire_operand_controller.go:199-201 | The recursive call leaves the map around it as it was. |
| `MergeInPlace.Assign` | operator/internal/controller/spire_operand_controller.go:204 | An assignment changes one key of one map. |

## Left out

- Assumptions of the bundle service runs: updates keep an object's scope unless it was `client`, global objects sit in the service namespace, requests carry parsed identities, and a build is one step between event deliveries.
- Assumptions of the label runs: reads return the stored object, and writers other than the operator leave the per-card annotations and the label alone.
- Broker event delivery to waiting clients: whether the event buffer has room is chosen freely at the step that sends; contents of events, `TokenWaiters` and `DeleteToken` calls (the service makes none) are not part of the runs.
- Callback lookup and delivery are one step, so a session cannot end between them.
- BrokerSingleFlight.SecondFlowOnlyAfterExpiry: assumes the session's own key is never reused, because a reused key gives a second session object with its own semaphore.
- SessionManager.SessionManager.ResetSessionTimer: does not model `LastPollAt`, the session deadline or the backend redirect URL, which no property here depends on.
- SessionManager.SessionManager.CreateSession: a session pointer is the object's allocation number and its fields are values, so aliasing of session objects is not captured.
- SessionManager.SessionManager.Shutdown: requires that the manager is not shut down yet, because closing the shutdown channel a second time panics.
- Policies.ContentHash: `sort.Slice` is a sort function with a fixed outcome; Go may order equal paths differently, which `OneTagExactlyWhenUnambiguous` and the free sort order of the runs cover.
- BundleCaches.BundleCache.Get: `InvalidateFunc` and `Len` are not modelled; the service does not call them.
- BundleProvider.Provider.BuildBundle: `singleflight`, the build semaphore and the size limit are part of the atomic build; a bundle that is too large is a failed archive. The policy cache's own hash field is not modelled, since nothing reads it.
- Json.ParseUndoesPrint: strings are sequences of Unicode scalar values, so invalid UTF-8, which Go replaces, is not modelled; a number is the text `json.Marshal` writes for it.
- CanonicalCard.CreateCanonicalCardJSON: starts from the decoded JSON tree of the card; the struct-to-JSON marshalling before it and its error results are not modelled.
- Signing.SignCard: the indented output text is not modelled, only the card's new signatures; clearing of private keys is left out.
- Signing.VerifyJWS: the details texts are not modelled; PEM decoding and key parsing are one function.
- X5c.X5CProvider.RefreshTrustBundle: bundle parsing (PEM or SPIFFE JSON) is one function from the document to the roots; metrics and logging are left out.
- VerifiedLabel.Workload.PropagateAttempt: the retry wrapper and the API server appear as steps of the run, with the five attempts of `retry.DefaultRetry`; workload kinds and deletion of the workload are left out.
- Resign.RestartBound: reconciles are sequential and their writes succeed; time is in whole seconds, as the annotations store it. The two-phase Sandbox restart is left out.
- MergeInPlace.MergeNestedMap: takes a stored spec and a spec of ours without sharing, as the deep copy and the literals before the call provide; lists are values, since the merge never changes one.
- SpecMerge.NoFighting: the read of the current values and the update are one step; labels and the four child objects' literal specs are left out (`MergeNeverFights` covers any spec).
- HTTP handlers and routing, JSON error bodies, metrics, logging, event recording, command-line flags and environment parsing.
- OAuth discovery and the token exchange over the network, apart from their outcome.
- Sigstore bundle verification, network policies, bootstrap runnables, Keycloak and MLflow clients, the other operand controllers, CRD types and container builders: they would add only easy members.
