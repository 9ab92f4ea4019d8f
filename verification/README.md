# Verified model of scia

`scia` is a proxy that injects credentials into the requests that pass through it. This project
models the parts of it that keep state or that must agree with each other, in Dafny 4.11, and
proves what they promise. `dafny verify dfyconfig.toml` checks all of it.

| files | what they model |
|---|---|
| `Envelope`, `EnvelopeRuns`, `EnvelopeExpiry`, `EnvelopeStore`, `DekCache`, `Buffers` | secrets sealed under their own data keys, and the expiring cache of unwrapped keys with its buffers |
| `Kms`, `Base64` | the key service, directly and through the broker endpoint |
| `TokenRefresh`, `TokenRefreshRuns`, `TokenRefreshCalls`, `TokenRefreshFailures`, `TokenRefreshOverlap` | many threads that refresh one credential against an endpoint that rotates refresh tokens: locked and serial runs, what each call returns and caches, when one fails, overlapping calls without a lock |
| `YamlTree`, `YamlLaws`, `YamlMerge` | merging configuration files, on trees and on shared nodes |
| `Services`, `ServiceIndex`, `ServiceIndexRuns`, `ServicePlan`, `ServiceSelection`, `ServiceRequests` | descriptions of services, their index under serial and overlapping writers, host rules, interception, selection and application |
| `Approval` | requests that wait for an approval |
| `PathPolicy` | path normalization and the choice of a rule |
| `Scopes` | selection of OAuth scopes |
| `SignedState`, `TokenStorage` | the state parameter of an authorization, and where its token is stored, read and revoked |
| `Wrappers`, `Text`, `Distinct` | optional values and results, white space, lists without repetitions |

Two forms appear. Where calls of many threads interleave (token refresh, approval, index) the code is a
state machine whose steps are the single accesses to shared state, a run is any sequence of steps
of any threads, and a log records what callers observe. Elsewhere code that changes things in
place is a method over objects, arrays or maps, and its contract ties the new state to a function
on values, about which the laws are proved.

Cryptography is ideal: the key service is a table from fresh blobs to key and context, sealing is
a table from fresh ciphertexts to what was sealed, and the keyed hash has no collisions.
Randomness, clocks, the network, and whether the store answers are inputs of each step. Library
calls whose meaning does not matter to a claim (globs, lower-casing, splitting a port, URL syntax,
template rendering, JSON) are functions that the claims hold for whatever they do.

Where the code does not keep what one might expect of it, the exact condition is proved and an
example shows the other side:

- a configured refresh token hides the stored one (`ConfiguredTokenGoesStale`);
- two Notion refreshes overlap (`PresentsCurrentExactlyWhen`);
- a stored service is shadowed by a configured one (`SelectedOnceAndApplicable`);
- overlapping writers of the service index lose a name (`ListIsLineage`, `NothingIsLostExactlyWhen`);
- a listed generic credential names a user that the injector does not look at (`CallbackMeetsGeneric`);
- a Google token is left under its bare key after a revoke (`RevokedIsGoneExactlyWhen`);
- token fields with a dot, or two credentials of one user outside Kubernetes, share an entry
  (`EntriesMeetExactlyWhen`, `RevokeTakesExactlyWhen`);
- scope values with a separator or with white space at an end come back changed (`SplitOfJoin`);
- mapping, scalar and mapping merge differently when grouped differently (`AssociativeExactlyWhen`);
- a tree with repeated keys is changed by merging it with itself (`IdempotentExactlyWhen`);
- a resolver is told true although the wait gave up (`ResolvedIsTakenExactlyWhen`);
- credential ids with a NUL let a cached key open another record's envelope
  (`CopiedEnvelopeAgreesExactlyWhen`);
- a header template in another spelling of the token's header replaces the token (`TokenIsInjected`).

## Model

| member | source | states |
|---|---|---|
| `EnvelopeRuns.StoreIsAMap` | internal/secrets/envelope.go:103-170 | in every run of Put, Get, Delete, clock advance, expiry, eviction and clearing, a Get that backend and key service let through returns exactly the last value put since the last delete, else absent; an answer is never wrong even when they fail in between |
| `EnvelopeRuns.PutSucceedsExactlyWhen` | internal/secrets/envelope.go:135-170 | a Put succeeds if and only if the caller is admitted (a broker refuses empty ids), the service hands out a usable key, there is randomness, and the backend is up |
| `EnvelopeRuns.StepRefines` | internal/secrets/envelope.go:103-170 | each step of the store is a step of a plain map, and keeps the cache sound |
| `EnvelopeRuns.ReplayIsLastPut` | internal/secrets/envelope.go:118-128 | the abstract map is the last successful Put with no successful Delete after it |
| `EnvelopeRuns.CacheIsTransparent` | internal/secrets/envelope.go:172-213 | in every run, also when others overwrite records with arbitrary or copied envelopes, a read equals the same read with an empty cache, or both fail, given distinct data keys and NUL-free credential ids |
| `EnvelopeRuns.HitAgreesWithMiss` | internal/secrets/envelope.go:172-213 | for any envelope at any NUL-free record, the cached key and the service lead to the same plaintext or both fail |
| `EnvelopeRuns.CopiedEnvelopeAgreesExactlyWhen` | internal/secrets/envelope.go:172-213 | for an envelope read at another record, hit and miss agree if and only if the record is its own or the binding texts differ |
| `EnvelopeRuns.AadInjective` | internal/secrets/envelope.go:249-251 | the text that binds a ciphertext to its record is injective for NUL-free credential ids |
| `EnvelopeRuns.AadAmbiguousWithNul` | internal/secrets/envelope.go:249-251 | with a NUL in a credential id two different records share that text |
| `EnvelopeRuns.CacheChangesAnAnswer` | internal/secrets/envelope.go:172-213 | under any settings that cache and admit the record: a run of one Put and one copied envelope after which a read of one of these records returns the other's value, while the same read with an empty cache fails to unwrap |
| `EnvelopeRuns.CopyAfterPut` | internal/secrets/envelope.go:172-213 | this happens in whatever store, after any successful Put and a copy of its envelope over another record with the same binding text |
| `EnvelopeRuns.StepKeepsKeysBound` | internal/secrets/envelope.go:135-170 | every step keeps each data key bound to the one record it sealed for |
| `Envelope.StepKeepsCacheSound` | internal/secrets/envelope.go:172-213 | every step keeps each cached key equal to what the service unwraps for its text, within the bound |
| `Envelope.UnwrapIsTableKey` | internal/secrets/envelope.go:172-193 | unwrapping for a record succeeds if and only if the blob was wrapped for it with a 32-byte key, and then gives that key, directly and through the broker |
| `Envelope.GeneratedKey` | internal/secrets/envelope.go:135-150 | what a generated key adds to the service, and that it is bound to the record |
| `EnvelopeStore.Store.Get` | internal/secrets/envelope.go:103-116 | the running Get takes exactly the step of the state machine |
| `EnvelopeStore.Store.Put` | internal/secrets/envelope.go:118-170 | the running Put takes exactly the step of the state machine, in success and in each failure |
| `EnvelopeStore.Store.DecryptPayload` | internal/secrets/envelope.go:172-213 | the buffer a read used is its own, is wiped, and wiping it leaves the cache as it was |
| `EnvelopeStore.Store.SealValue` | internal/secrets/envelope.go:143-170 | the new key is cached as a copy before the caller's buffer is wiped |
| `EnvelopeStore.Store.Delete` | internal/secrets/envelope.go:126-128 | deletes the record and nothing else |
| `EnvelopeStore.Store.ClearCache` | internal/secrets/envelope.go:130-133 | clearing wipes every cached key |
| `EnvelopeStore.NewStore` | internal/secrets/envelope.go:77-101 | a store is made exactly when a key id is set and the context leaves the record entries alone |
| `DekCache.Cache.Get` | internal/secrets/envelope.go:270-286 | there is a hit exactly for an entry that has not expired yet, and it is a fresh copy of its key; an entry at or past its expiry is dropped |
| `EnvelopeExpiry.ReadIgnoresExpired` | internal/secrets/envelope.go:270-286 | a read answers as if every expired key had been dropped before it |
| `EnvelopeExpiry.AfterReadIgnoresExpired` | internal/secrets/envelope.go:270-318 | and it can leave exactly the same good keys |
| `EnvelopeExpiry.RunIgnoresExpired` | internal/secrets/envelope.go:172-213 | so does every Get of every run |
| `EnvelopeExpiry.TimePasses` | internal/secrets/envelope.go:270-286 | in every run time passes by the delays of ticks and reads, and never goes back |
| `EnvelopeExpiry.OfflineReadsAreRecent` | internal/secrets/envelope.go:172-213 | in every run, a secret that is read while the key service is down was opened with a key that an earlier step had in hand, from the service, less than a lifetime before, with no clearing in between |
| `EnvelopeExpiry.CachedKeysWereInHand` | internal/secrets/envelope.go:288-318 | every cached key was in hand at the step at which its lifetime starts |
| `EnvelopeExpiry.ReadsAgainOffline` | internal/secrets/envelope.go:172-213 | after a read that fetched its key, the same read succeeds without the service until the lifetime is over |
| `EnvelopeExpiry.PutReadsOffline` | internal/secrets/envelope.go:135-170 | and so does a read of what was just put |
| `DekCache.Cache.Put` | internal/secrets/envelope.go:288-318 | the new cache is one that drops the expired, evicts only for room, and adds a copy of the key |
| `DekCache.Cache.DropExpired` | internal/secrets/envelope.go:296-301 | removes exactly the expired entries |
| `DekCache.Cache.Oldest` | internal/secrets/envelope.go:302-308 | the scan finds an entry no younger than any other, as long as no key is empty |
| `DekCache.Cache.Evict` | internal/secrets/envelope.go:302-312 | the eviction loop ends with room for one more, dropping no entry younger than one it keeps |
| `DekCache.Cache.Drop` | internal/secrets/envelope.go:310-311 | the buffer of a dropped entry is wiped |
| `DekCache.Cache.Clear` | internal/secrets/envelope.go:320-327 | every entry is dropped and wiped |
| `DekCache.PutKeepsBound` | internal/secrets/envelope.go:288-318 | after a put the count is within the limit and nothing that had expired is left |
| `DekCache.PutDropsOldest` | internal/secrets/envelope.go:302-312 | an evicted entry is no younger than any prior entry that stays, and none is evicted while there is room, as long as no entry has the empty key |
| `Envelope.RunDropsOldest` | internal/secrets/envelope.go:288-318 | in every run and at every step but clearing, a key that leaves the cache before it expires is no younger than any that stays, none leaves while there is room, and the count is within the limit |
| `Envelope.CachedTextDecodes` | internal/secrets/envelope.go:302-308 | no cached text is empty, so the scan's start marker is never an entry's key |
| `Buffers.ZeroBytes` | internal/secrets/envelope.go:329-333 | every byte of the buffer becomes zero |
| `Kms.BrokerGenerates` | internal/secrets/kms_broker.go:51-65 | through the broker a key is generated under the broker's own key and context, whatever the caller configured, if and only if the caller is admitted and the key usable |
| `Kms.BrokerDecrypts` | internal/secrets/kms_broker.go:67-85 | decrypting through the broker is decrypting directly under the broker's own context |
| `Kms.GenerateThenDecrypt` | internal/secrets/envelope.go:53-75 | generate then decrypt through either route gives the same key back for the same record, and none for any other |
| `Kms.HandleBroker` | internal/oauth/server.go:219-274 | the endpoint answers as specified, refusal by refusal and for each path, and wipes the plaintext key |
| `Kms.GivesOutExactlyWhen` | internal/oauth/server.go:219-274 | a key is given out exactly to a posted request with the server's own token for a named record: a new one wrapped under the server's key and context, or one that was wrapped under just these |
| `Kms.TurnsAway` | internal/oauth/server.go:219-250 | which refusal any other request gets, first things first |
| `Kms.GenerateDataKey` | internal/secrets/kms_broker.go:51-65 | the client call matches its specification, directly and through the broker |
| `Kms.DecryptDataKey` | internal/secrets/kms_broker.go:67-85 | likewise for decryption, which leaves the service as it was |
| `Kms.DecodeBrokerResponse` | internal/secrets/kms_broker.go:122-136 | a reply is accepted exactly with a 32-byte key and, when required, a non-empty blob; a rejected key is wiped |
| `Kms.RecordOfContext` | internal/secrets/kms_broker.go:113-120 | the record is recovered from its encryption context unless a part is empty |
| `Kms.RecordContextInjective` | internal/secrets/envelope.go:239-247 | different records have different contexts |
| `Base64.RoundTrip` | internal/secrets/kms_broker.go:87-111 | unpadded base64 of section 4 of RFC 4648 decodes to what was encoded |
| `Base64.EncodeInjective` | internal/secrets/envelope.go:143-168 | different bytes have different texts |
| `Base64.EncodeHasNoDot` | internal/oauth/server.go:2889 | encoded parts can be joined with a dot and split again |
| `Base64.LineBreaksDoNotCount` | internal/secrets/kms_broker.go:87-111 | line breaks are skipped wherever they are, and any other character outside the alphabet spoils the text |
| `Base64.DigitsOfThreeBytes` | internal/secrets/kms_broker.go:87-111 | three bytes are four six-bit digits, first byte highest |
| `Base64.Vectors` | internal/secrets/kms_broker.go:87-111 | vectors of section 10 of RFC 4648 without padding, and the digits in which the alphabets differ |
| `TokenRefreshRuns.PresentsCurrentUntilLost` | internal/auth/credential.go:255-331 | in every interleaving of any number of threads on a locked path, and in every serial Notion run, a request presents the endpoint's current refresh token if and only if no replacement was lost before it; the same of what is presented after each unlock |
| `TokenRefreshRuns.LostExactlyWhen` | internal/auth/credential.go:255-331 | a replacement is lost if and only if some step dropped one: a reply lost on the way or unusable, a failed store, or a configured token that hides the stored one |
| `TokenRefreshRuns.StoreHoldsCurrent` | internal/auth/credential.go:468-565 | in every run that drops nothing, every request presents the current token and at every unlock the store holds it |
| `TokenRefreshRuns.SingleFlight` | internal/auth/credential.go:567-669 | no request is issued while the cached token has more than 30 seconds left |
| `TokenRefreshCalls.ReturnedTokens` | internal/auth/credential.go:255-331 | in every interleaving on every path: a returned cached token was held, with more than 30 seconds left, at a look that this call made between its start and its return; a fresh one is, field by field, out of an answer to this call (generic services fall back to the stored field where the answer has none); otherwise it is the stored one; and any but a cached one this call has put in the cache |
| `TokenRefreshCalls.CachedTokens` | internal/auth/credential.go:255-331 | what a call caches is such a token, for the seconds its answer says, for generic services else the stored ones, else an hour; or the stored token for ten years |
| `TokenRefreshFailures.FailsOnlyWhen` | internal/auth/credential.go:171-331 | in every interleaving in which store, network and endpoint do their part, a call fails only because the token it presented was no longer current, its answer had no token of a supported type, or there was no refresh token and no access token to fall back to |
| `TokenRefreshCalls.FieldsNeverChange` | internal/auth/credential.go:255-331 | the stored access and identity tokens are never written |
| `TokenRefreshCalls.NextKeepsGood` | internal/auth/credential.go:902-941 | every step keeps, for every call under way, what it may return |
| `TokenRefreshRuns.ConfiguredTokenGoesStale` | internal/auth/credential.go:822-845 | a configured refresh token of a form provider is always presented, and is current if and only if no answer has replaced it |
| `TokenRefreshRuns.ConfiguredTokenIsPresentedStale` | internal/auth/credential.go:822-845 | a run in which one is presented after the endpoint has replaced it and the replacement been stored |
| `TokenRefreshOverlap.PresentsCurrentExactlyWhen` | internal/auth/credential.go:171-243 | in every interleaving of Notion calls, against an endpoint that never reissues a token, a request presents the current token if and only if, when its call read it, none had been lost and no thread held one not yet stored, and no other call got a replacing answer since |
| `TokenRefreshOverlap.StoreHoldsCurrentExactlyWhen` | internal/auth/credential.go:171-243 | in the same runs, what would be presented is current if and only if no replacement is held or has been lost |
| `TokenRefreshOverlap.NextKeepsGood` | internal/auth/credential.go:171-243 | every Notion step keeps at most one replacement in flight, and everything else out of date meanwhile |
| `TokenRefreshRuns.OverlappingNotionCallsPresentStale` | internal/auth/credential.go:171-243 | two overlapping Notion calls, which take no lock, present a used-up token |
| `TokenRefreshRuns.StepIsOk` | internal/auth/credential.go:671-770 | every step of every program point keeps the invariant of the run |
| `TokenRefresh.StepKeepsApart` | internal/auth/credential.go:268-283 | the lock keeps at most one thread between its recheck and its release |
| `YamlLaws.LastWriterWins` | internal/config/file_provider.go:101-123 | pointwise meaning of the merge at every key path |
| `YamlLaws.MergedKeyOrder` | internal/config/file_provider.go:110-122 | at every merged mapping, base keys come first in their order, then new keys in theirs |
| `YamlLaws.MergeIsOverExactlyWhen` | internal/config/file_provider.go:101-123 | merging gives the overriding tree if and only if it repeats the base's keys in order |
| `YamlLaws.Idempotent` | internal/config/file_provider.go:101-123 | merging a tree without repeated keys with itself changes nothing |
| `YamlLaws.IdempotentExactlyWhen` | internal/config/file_provider.go:101-132 | of any tree, with repeated keys or not: merging it with itself changes nothing if and only if folding all values of each key onto its first gives that first |
| `YamlLaws.NotIdempotentWithRepeatedKeys` | internal/config/file_provider.go:125-132 | a tree with a repeated key that does not |
| `YamlLaws.OverridingTwice` | internal/config/file_provider.go:31-46 | loading an overriding file twice is loading it once |
| `YamlLaws.AssociativeExactlyWhen` | internal/config/file_provider.go:101-123 | grouping does not matter if and only if, wherever a mapping is interrupted by something else and taken up again, the last file repeats the first one's keys |
| `YamlLaws.AssociativeWithoutInterruption` | internal/config/file_provider.go:101-123 | in particular when no path has mapping, other, mapping |
| `YamlLaws.GroupingCanMatter` | internal/config/file_provider.go:108-110 | mapping, scalar, mapping: the groupings differ |
| `YamlLaws.LastFileWins` | internal/config/file_provider.go:31-46 | a scalar or list of the last file is what is loaded, whole |
| `YamlTree.FindMerged` | internal/config/file_provider.go:101-123 | one key of a merged mapping |
| `YamlTree.KeyOrder` | internal/config/file_provider.go:113-121 | key order of a merged mapping |
| `YamlTree.MergeKeepsUnique` | internal/config/file_provider.go:101-123 | keys stay unique |
| `YamlMerge.MergeNodes` | internal/config/file_provider.go:101-123 | the merge on nodes spells the specified tree, the items of lists included; what is not made of two mappings is the overriding node itself, and what is, is a new one; no input node or array changes (it has no modifies clause), and it ends |
| `YamlMerge.MergeMappings` | internal/config/file_provider.go:111-122 | copy, replace and append over content arrays |
| `YamlMerge.PutPair` | internal/config/file_provider.go:113-120 | one key: replaced in the copy, or appended |
| `YamlMerge.MappingValueIndex` | internal/config/file_provider.go:125-132 | the place of a key's value, or -1 |
| `YamlMerge.Load` | internal/config/file_provider.go:31-46 | the left fold over the files; a last file that is no mapping is the result itself |
| `Services.NormalizeInPlace` | internal/serviceinfo/serviceinfo.go:269-345 | fills in defaults in the caller's own hosts and OAuth record, also when it then refuses; answers as specified; trying again gives the same answer |
| `Services.NormalizeHosts` | internal/serviceinfo/serviceinfo.go:276-294 | the host loop, with the defaults written before each failure |
| `Services.NormalizeOAuth` | internal/serviceinfo/serviceinfo.go:295-330 | the OAuth defaults and checks |
| `Services.NormalizeTokenRequest` | internal/serviceinfo/serviceinfo.go:315-329 | the token request defaults and checks |
| `Services.NormalizedIsFixed` | internal/serviceinfo/serviceinfo.go:347-359 | a normalized description, and what clients see of it, normalizes to itself |
| `Services.ValidatedNormalizes` | internal/config/config.go:570-649 | validation leaves no default for Normalize to write; Normalize returns the description or refuses it exactly for a malformed URL |
| `Services.NormalizeValidated` | internal/serviceinfo/serviceinfo.go:269-345 | on a validated description Normalize writes nothing at all, and refuses exactly for a malformed URL |
| `Services.SanitizeCommutes` | internal/serviceinfo/serviceinfo.go:347-359 | removing client secrets neither adds nor hides a refusal |
| `Services.SanitizedHidesTheClient` | internal/serviceinfo/serviceinfo.go:347-359 | clients see the same of two descriptions if and only if these differ at most in the OAuth client, its secret, and where they are kept |
| `Services.NormalizesExactlyWhen` | internal/serviceinfo/serviceinfo.go:269-345 | which descriptions are accepted from elsewhere, part by part |
| `Services.ValidatesExactlyWhen` | internal/config/config.go:570-649 | which configured ones are |
| `Services.NormalizedMeans` | internal/serviceinfo/serviceinfo.go:269-345 | what an accepted description becomes: each default, and nothing else |
| `Services.AcceptedHostsOk` | internal/serviceinfo/serviceinfo.go:276-280 | every accepted description has exactly one of host and suffix in each rule |
| `ServiceIndex.RunListed` | internal/serviceinfo/serviceinfo.go:77-122 | the same list for any readable store to begin with |
| `ServiceIndex.IndexIsComplete` | internal/serviceinfo/serviceinfo.go:35-122 | after any run of Put calls the list has each accepted trimmed id once, in the order in which they were first put, and each reads back as the sanitized normalized form of its last Put |
| `Distinct.FirstsInOrder` | internal/serviceinfo/serviceinfo.go:109-120 | elements of a list without repetitions come in the order of their first occurrences |
| `ServiceIndex.RunStored` | internal/serviceinfo/serviceinfo.go:35-76 | the same reads for any store to begin with, other ids unchanged |
| `ServiceIndex.PutListed` | internal/serviceinfo/serviceinfo.go:35-97 | one call; it succeeds if and only if id and description are accepted |
| `ServiceIndex.PutStored` | internal/serviceinfo/serviceinfo.go:35-76 | one call replaces the description of its id only |
| `ServiceIndex.GetMeans` | internal/serviceinfo/serviceinfo.go:54-75 | what is read under an id: nothing without an entry, else the accepted normal form of a description kept under this id or none |
| `ServiceIndex.Compact` | internal/serviceinfo/serviceinfo.go:110-121 | the in-place compaction keeps the distinct trimmed ids in order |
| `ServiceIndex.ListStored` | internal/serviceinfo/serviceinfo.go:99-122 | the list over a store that may fail |
| `ServiceIndex.GetStored` | internal/serviceinfo/serviceinfo.go:54-75 | a read over a store that may fail |
| `ServiceIndex.AddToStoredIndex` | internal/serviceinfo/serviceinfo.go:77-97 | adding to the list; on any error nothing changes |
| `ServiceIndex.PutStoredService` | internal/serviceinfo/serviceinfo.go:35-52 | Put over a store that may fail; what a failure leaves |
| `ServiceIndexRuns.AloneIsPut` | internal/serviceinfo/serviceinfo.go:35-97 | the accesses of a call that nobody disturbs are Put |
| `ServiceIndexRuns.ListIsLineage` | internal/serviceinfo/serviceinfo.go:77-122 | in every interleaving of calls at their single store accesses, with a store that may fail: the list is exactly the names on the way back from its last write, through the write that each writer had read, to the list at the start |
| `ServiceIndexRuns.NothingIsLostExactlyWhen` | internal/serviceinfo/serviceinfo.go:77-97 | the list is the one at the start and every name written, in order, if and only if no write of the list falls between the read and the write of another call |
| `ServiceIndexRuns.UnlistedByStaleWrite` | internal/serviceinfo/serviceinfo.go:77-97 | a name that a call wrote is listed unless a write worked out from an older read follows |
| `ServiceIndexRuns.StaleWriteNeedNotUnlist` | internal/serviceinfo/serviceinfo.go:77-97 | such a write need not unlist it in the end: a later one can bring it back |
| `ServiceIndexRuns.OverlappingPutsLoseOne` | internal/serviceinfo/serviceinfo.go:35-97 | for any two accepted items: a run in which both calls succeed and the first one's description is stored but not listed |
| `ServiceIndexRuns.DescriptionIsLast` | internal/serviceinfo/serviceinfo.go:35-75 | in every interleaving each id reads back as the last description written for it, listed or not |
| `ServiceIndexRuns.NextKeepsGood` | internal/serviceinfo/serviceinfo.go:35-97 | every access keeps store, calls under way and log in agreement |
| `ServicePlan.HostMatchesExactlyWhen` | internal/serviceinfo/serviceinfo.go:145-185 | with one of host and suffix per rule, a host matches if and only if some path on it finds a rule |
| `ServicePlan.BothPartsOrNone` | internal/serviceinfo/serviceinfo.go:145-185 | without that condition neither implies the other |
| `ServicePlan.FirstRuleExists` | internal/serviceinfo/serviceinfo.go:145-166 | the first rule that applies is found, if any applies |
| `ServicePlan.RuleForMeans` | internal/serviceinfo/serviceinfo.go:145-166 | the rule of a request is the first that asks for no more than its host without the port, exactly or by a suffix with something before it, and the start of its path |
| `ServicePlan.HostMatchesMeans` | internal/serviceinfo/serviceinfo.go:168-185 | a host matches if and only if a rule names it, without its port, or a proper suffix of it |
| `ServicePlan.PortDoesNotCount` | internal/serviceinfo/serviceinfo.go:145-185 | hosts that differ in port and case alone have the same rule and match the same services |
| `ServicePlan.WithAndWithoutPort` | internal/serviceinfo/serviceinfo.go:145-149 | so a host with a port counts as the host without it |
| `ServicePlan.MatchingConfiguredIDs` | internal/proxy/server.go:530-542 | the configured matches in ascending order, whatever order the map is walked in |
| `ServicePlan.ListingUnique` | internal/proxy/server.go:540-541 | that order is unique |
| `ServiceSelection.SelectedOnceAndApplicable` | internal/proxy/server.go:436-467 | each id is selected once, and passes the later host check if and only if it is not shadowed by a configured service with other hosts |
| `ServiceSelection.SelectedExactlyWhen` | internal/proxy/server.go:436-467 | explicit services are selected as they are; without any, exactly those configured or listed with a rule for the request; and the store only changes when there was none and the list can be fetched |
| `ServiceSelection.InterceptedExactlyWhen` | internal/proxy/server.go:469-510 | a connection is intercepted if and only if services are named, or a configured or listed one is on its host |
| `ServiceSelection.PortDoesNotCountInSelection` | internal/proxy/server.go:436-467 | the port and case of the host play no part in the selection |
| `ServiceSelection.PortDoesNotCountInInterception` | internal/proxy/server.go:161-170 | nor in the choice at CONNECT, whose host comes with its port |
| `ServiceSelection.ShadowedIsSelected` | internal/auth/credential.go:91-94 | a shadowed stored service is selected and fails that check |
| `ServiceSelection.ShadowingHappens` | internal/auth/credential.go:91-94 | a validated configured service and a stored one of the same id for another host: it is selected and cannot be applied |
| `ServiceSelection.InterceptionCoversSelection` | internal/proxy/server.go:436-510 | a request that selects a service belongs to a host that is chosen for interception |
| `ServiceSelection.LeftAloneSelectsNothing` | internal/proxy/server.go:469-523 | a connection that was not intercepted carries no request that selects a service, also when the choice itself fetched and cached the list |
| `ServiceSelection.InterceptedHasSelectingPath` | internal/proxy/server.go:469-510 | an intercepted host has a path on which some service applies |
| `ServiceSelection.FetchTwice` | internal/proxy/server.go:512-523 | caching the same list again changes nothing |
| `ServiceSelection.FetchedAreAccepted` | internal/serviceinfo/serviceinfo.go:227-267 | every item of a fetched list is accepted by Put |
| `ServiceSelection.FetchedExactlyWhen` | internal/serviceinfo/serviceinfo.go:227-267 | a fetched list is taken if and only if every item would be accepted, and is then their normal forms under trimmed names, in order |
| `ServiceRequests.MatchingStoredIDs` | internal/serviceinfo/serviceinfo.go:124-143 | the loop over the stored ids |
| `ServiceRequests.ServiceIDsForRequest` | internal/proxy/server.go:436-467 | the selection loop, with its fetch when nothing matches |
| `ServiceRequests.ShouldIntercept` | internal/proxy/server.go:469-510 | the choice at CONNECT |
| `ServiceRequests.FetchAndCacheMetadata` | internal/proxy/server.go:512-523 | fetch and put each item up to the first refusal; what a failing store leaves is all items before some place, and that one at most partly |
| `ServiceRequests.SelectionIsApplied` | internal/auth/credential.go:50-89 | the selected services are found and pass the host check if none is shadowed, and otherwise the request fails |
| `ServiceRequests.MeantAreApplied` | internal/auth/credential.go:50-89 | applicable services can only fail in getting a token or rendering a template |
| `ServiceRequests.NotMeantStops` | internal/auth/credential.go:59-62 | one that does not apply stops the request |
| `ServiceRequests.TokenIsInjected` | internal/auth/credential.go:63-87 | the authorization header a service leaves: what the last template for it, in whatever spelling, renders to; without one the OAuth access token, or the stored token of a service with inputs, in the form its rule wants, never an empty one; and what it was if the rule wants none |
| `ServiceRequests.AppliesExactlyWhen` | internal/auth/credential.go:63-87 | a service is applied if and only if it has the fields and token its kind and rule call for, the method is known, and every template renders |
| `ServiceRequests.HeaderIsSet` | internal/auth/credential.go:1056-1067 | each header of a service has what its last template renders to with the service's own credential and fields, and without a template, but for the token, what it had |
| `ServiceRequests.QueryIsSet` | internal/auth/credential.go:1068-1080 | each query name likewise |
| `ServiceRequests.LastServiceDecidesHeader` | internal/auth/credential.go:50-89 | of all applied services the last that may set a header decides it, by its template or its token |
| `ServiceRequests.LastServiceDecidesQuery` | internal/auth/credential.go:50-89 | and the last with a template for a query name decides that |
| `ServiceRequests.OtherQueriesStay` | internal/auth/credential.go:1068-1080 | a query name without a template comes through unchanged |
| `ServiceRequests.OtherSpellingOverrides` | internal/auth/credential.go:1061-1067 | a template for the same header in another spelling takes the token's place |
| `ServiceRequests.SetAllMeans` | internal/auth/credential.go:1061-1078 | the last template of a canonical header name, or of a query name, decides its value |
| `ServiceRequests.OtherHeadersStay` | internal/auth/credential.go:1056-1080 | a header whose canonical name no applied service sets comes through unchanged |
| `ServiceRequests.ApplyServices` | internal/auth/credential.go:50-89 | services are applied in turn; host and path stay, headers and query become as specified |
| `ServiceRequests.ApplyService` | internal/auth/credential.go:63-87 | one service: token, authorization header, templates |
| `ServiceRequests.SetQuery` | internal/auth/credential.go:1068-1078 | the query is written back only when all its templates are rendered |
| `ServiceRequests.FindService` | internal/auth/credential.go:91-110 | a configured service first, then a stored one, then one fetched and stored |
| `ServiceRequests.LookupMeans` | internal/auth/credential.go:91-110 | a lookup finds what the id means; what is nowhere yet is found exactly when it can be fetched and is accepted, and is then stored, listed, and read back without its client |
| `Approval.ApprovalRulePassesExactlyWhen` | internal/proxy/server.go:816-832 | in every interleaving, a request under an approval rule goes on if and only if its wait took a value and the first value sent on its channel was an approval; under a denying rule never |
| `Approval.ReturnedStatus` | internal/approval/manager.go:45-67 | the status Wait returns is the first one sent, or denied on timeout and cancellation |
| `Approval.LateResolveFails` | internal/approval/manager.go:79-97 | a Resolve that looks after the delete finds nothing and answers false |
| `Approval.ListShowsPending` | internal/approval/manager.go:69-77 | a list shows exactly the requests inserted and not deleted, each as pending |
| `Approval.ResolvedWasSent` | internal/approval/manager.go:79-91 | a true answer means that this call sent its status, which was an approval or a denial |
| `Approval.FalseOnlyWhen` | internal/approval/manager.go:79-91 | in every run, a call of Resolve is told false exactly when its status is none the service knows, or it looked and found nothing |
| `Approval.StatusIsReturned` | internal/approval/manager.go:45-91 | an approval as well as a denial can be sent, answered true and returned by the wait |
| `Approval.ObservedComesFromCalls` | internal/approval/manager.go:45-97 | in every run, a listed request is what its call of Wait described, a wait gives up only when timed out or cancelled, and a status sent or answered is the one the resolver named |
| `Approval.ResolvedIsTakenExactlyWhen` | internal/approval/manager.go:45-91 | of the calls of Resolve that were told true, the one whose value the wait took is exactly the first sender, if the wait took a value; its status is the one returned |
| `Approval.OneVote` | internal/approval/manager.go:79-91 | a call of Resolve sends at most one value, on one channel |
| `Approval.ResolvedNeedNotBeReturned` | internal/approval/manager.go:45-91 | a true answer does not mean Wait returned that status |
| `Approval.FirstSentWasSent` | internal/approval/manager.go:89 | the first value sent was sent; there is none exactly when nothing was |
| `Approval.NextKeepsGood` | internal/approval/manager.go:45-97 | every step keeps channel, entry and log in agreement |
| `PathPolicy.Idempotent` | internal/config/config.go:908-913 | the normal form is a fixed point, for every input |
| `PathPolicy.NormalForm` | internal/config/config.go:908-913 | the result is rooted and has no empty, dot or dot-dot segment |
| `PathPolicy.NormalizedExactlyWhen` | internal/config/config.go:908-913 | a path is its own normal form if and only if it is the root or spells plain segments |
| `PathPolicy.SegmentsFromTheRight` | internal/config/config.go:912 | an independent reading: each dot-dot takes the nearest earlier segment no later one has taken |
| `PathPolicy.DetoursVanish` | internal/config/config.go:908-913 | there-and-back, repeated slashes and dots leave the normal form unchanged |
| `PathPolicy.FirstMatchDecides` | internal/policy/policy.go:19-30 | the first matching rule decides; without one the default is to allow |
| `PathPolicy.RuleMatchesExactlyWhen` | internal/policy/policy.go:32-86 | what a rule asks for: one of its methods, one of its host patterns with the port or without, one of its path patterns; a pattern stands for its glob, itself, and with a final star all that starts as it does |
| `PathPolicy.NoPathIsRoot` | internal/policy/policy.go:19-30 | a request without a URL or path, such as CONNECT, is decided as one for the root |
| `PathPolicy.PolicySeesUpstreamPath` | internal/proxy/server.go:97-115 | the rules are matched against exactly the path that is sent upstream |
| `PathPolicy.TargetMeans` | internal/config/config.go:891-906 | an absolute URL goes to its own scheme and host, any other over HTTP to the named host; the two errors exactly when there is no URL or neither host |
| `PathPolicy.InterceptedTargetMeans` | internal/proxy/server.go:275-286 | requests in an intercepted connection go to its own host over HTTPS |
| `PathPolicy.PolicySeesInterceptedPath` | internal/proxy/server.go:275-286 | the same for requests in an intercepted connection |
| `PathPolicy.DetoursDoNotChangeDecision` | internal/proxy/server.go:275-286 | a detour in the path changes neither decision nor upstream path |
| `Scopes.SplitScopeValues` | internal/oauth/server.go:2526-2547 | the loop with its seen set gives the distinct trimmed values in order |
| `Scopes.SplitOfJoin` | internal/oauth/server.go:487-490 | splitting the joined values gives them back, each once and in order, if and only if every value is non-empty, without white space at its ends and without a separator |
| `Scopes.ScopeValuesAreCarried` | internal/oauth/server.go:2526-2547 | whatever is split, only such values come out |
| `Scopes.ValueWithSeparatorBreaks` | internal/oauth/server.go:2407-2461 | a configured value with a comma is chosen and written, and is split into two |
| `Scopes.InnerWhiteSpaceIsCarried` | internal/oauth/server.go:2526-2547 | white space inside a value that is no separator survives |
| `Scopes.ScopeFromRequest` | internal/oauth/server.go:2407-2461 | both loops and every error are as specified |
| `Scopes.ReadScopes` | internal/oauth/server.go:2421-2439 | the pass over the configured scopes: later entries overwrite, defaults are selected |
| `Scopes.SelectRequested` | internal/oauth/server.go:2440-2456 | the pass over the requested names, with its first error |
| `Scopes.SelectScopeGroup` | internal/oauth/server.go:2463-2472 | the map of groups detects exactly a different value chosen for the same group |
| `Scopes.ChosenIsConfigured` | internal/oauth/server.go:2407-2461 | every chosen value is configured, entries of one group share one value, and there is at least one |
| `Scopes.RequestSucceedsExactlyWhen` | internal/oauth/server.go:2440-2456 | a request succeeds if and only if every name has a meaning and the meanings agree |
| `Scopes.SettlesExactlyWhen` | internal/oauth/server.go:2432-2438 | defaults are accepted if and only if no two of one group differ |
| `Scopes.MeaningIsConfigured` | internal/oauth/server.go:2430-2431 | a name stands for a configured scope that has it as id or value |
| `Scopes.ScopeTextSplits` | internal/oauth/server.go:2407-2461 | from configuration to the split of the returned text: the chosen values come back, each once and in order, if and only if each of them can be carried |
| `Scopes.ScopeTextMeans` | internal/oauth/server.go:2407-2461 | without configured scopes the requested text, else the configured, else the built-in one; with them the chosen values in order, told apart by commas for Todoist and blanks for others |
| `Scopes.ChosenExactlyWhen` | internal/oauth/server.go:2407-2461 | when a choice is made and which: all enabled scopes, or the meanings of all requested names, if there are any and they agree |
| `SignedState.StateRoundTrip` | internal/oauth/server.go:2863-2937 | a created state is accepted by a callback of its own provider with the time floored to seconds, by no other, and never for an empty credential |
| `SignedState.ChangedKeyRejects` | internal/oauth/server.go:2914-2920 | with another signing key it is rejected |
| `SignedState.AcceptedWasIssued` | internal/oauth/server.go:2892-2928 | any two-part text that is accepted says what an issued state for this provider said |
| `SignedState.AcceptedExactlyWhen` | internal/oauth/server.go:2896-2925 | a two-part text is accepted if and only if it carries a payload of version 1 for this provider, with credential and nonce, under the right signature, and then says what the payload says |
| `SignedState.KeptIsGivenBack` | internal/oauth/server.go:2928-2937 | a state kept in memory is given back as it was kept, and no other is |
| `SignedState.TwoPartsAreNotLookedUp` | internal/oauth/server.go:2892-2926 | signed states never come from memory |
| `SignedState.Server.ConsumeState` | internal/oauth/server.go:2892-2937 | the outcome, and that only states looked up in memory are used up |
| `SignedState.Server.ConsumeTwice` | internal/oauth/server.go:2929-2937 | such a state is good for one callback |
| `TokenStorage.CallbackMeetsProvider` | internal/oauth/server.go:2845-2861 | for providers that read the listed record, the callback writes the entry that injection reads if and only if, in Kubernetes mode, its user is the record's |
| `TokenStorage.CallbackMeetsGeneric` | internal/auth/credential.go:280-288 | generic services read with an empty record: they read what the callback wrote if and only if, in Kubernetes mode, its user is the one the identifier implies, and otherwise the listed record names no other |
| `TokenStorage.ImpliedUser` | internal/config/config.go:1010-1018 | an identifier implies itself as user exactly unless it starts with a user's name |
| `TokenStorage.FindMeans` | internal/config/config.go:683-700 | the first listed record with an identifier is found, if there is one |
| `TokenStorage.KnownExactlyWhen` | internal/config/config.go:683-700 | a credential is known if and only if it is listed or implied; a listed record goes first |
| `TokenStorage.GenericReadsElsewhere` | internal/auth/credential.go:280-288 | a listed generic credential with a user: the callback writes one entry and the service reads another, in either mode |
| `TokenStorage.EntriesMeetExactlyWhen` | internal/auth/credential.go:869-874 | the entries of two fields are one if and only if the records are of one user and the fields share a key: the same field, of one credential where keys are prefixed; or, there, one identifier continues the other, after a dot, with the start of the other's field, whose rest is its own |
| `TokenStorage.PlainFieldsShareExactlyWhen` | internal/auth/credential.go:869-874 | fields without a dot share a key only as the same field, and of one credential where keys are prefixed |
| `TokenStorage.DottedFieldsCanMeet` | internal/auth/credential.go:869-874 | two generic credentials whose dotted fields are one entry, so that revoking the one takes the other |
| `TokenStorage.StoredTokenIsRead` | internal/auth/credential.go:822-867 | after a callback either read gives its token exactly when the entries meet, unless a configured value goes before it, and is otherwise as before; for both kinds of reader |
| `TokenStorage.RotatedTokenIsRead` | internal/auth/credential.go:822-879 | a rotated token is read back from where the refresh stored it, by the rotating read always, by the plain one unless a value is configured |
| `TokenStorage.ConfiguredMeans` | internal/auth/credential.go:822-867 | a configured value that starts with env: names a variable, any other is the value |
| `TokenStorage.TokenStore.TokenToRevoke` | internal/proxy/server.go:1206-1231 | the first requested field that has a token, or a failure of the store |
| `TokenStorage.RevokedFromMeans` | internal/proxy/server.go:1107-1110 | a revoke that names a user is about that user's record, any other about the credential's own |
| `TokenStorage.FirstTokenMeans` | internal/proxy/server.go:1206-1231 | that is the first field that has a token, all before it having none |
| `TokenStorage.TokenStore.Revoke` | internal/proxy/server.go:1107-1131 | what is revoked and deleted, and what each failure leaves: a failed delete leaves a revoked token |
| `TokenStorage.RevokedIsGoneExactlyWhen` | internal/proxy/server.go:1126 | after a revoke from a record, a reader of either kind finds nothing if and only if it reads that record and no token lies under the bare key of old; readers of another record find what they found before |
| `TokenStorage.RevokeMissesGeneric` | internal/proxy/server.go:1107-1126 | revoking through the listed record leaves the token that the generic service reads |
| `TokenStorage.LegacyTokenStays` | internal/proxy/server.go:1220-1227 | a token found under its bare key stays where it is |
| `TokenStorage.LegacyTokenExample` | internal/proxy/server.go:1206-1231 | one is found, revoked, and still there |
| `TokenStorage.RevokeTakesExactlyWhen` | internal/proxy/server.go:1342-1347 | a revoke takes another credential's token, of any field, if and only if they share the record and the key; the bare key of old stays, and everything else is read as before |
| `TokenStorage.RevokeTakesAnothers` | internal/proxy/server.go:1342-1347 | outside Kubernetes it does take one |

## Left out

- `ExternalStore` and `NoopStore` always miss on reads and are no maps; the store here is a map whose calls may fail.
- HTTP, TLS, hijacking, WebSockets, piping and proxy dialing; templates of pages; provider-specific start and callback pages.
- The envelope's outer text (prefix, base64, JSON) is a datatype: foreign, undecodable, or a decoded payload. Its inner base64 fields are decoded as Go does.
- A nonce of another length than twelve bytes makes Go's AEAD panic; here it is an outcome of its own, `NonceLengthPanic`.
- Overwriting a live cache entry leaves its old buffer unwiped in the code; wiping is only claimed of entries that expire, are evicted or are cleared.
- `DekCache.Cache.Oldest`: the scan starts from the empty key, so its order claim is for caches without one; `Envelope.CachedTextDecodes` shows that the store never caches under an empty text.
- Cache, approval manager and injector run under mutexes. The cache's methods are modelled as the critical sections they are; the interleaved protocols are state machines on values, which do not show aliasing.
- One credential is followed through a refresh. Calls for the same credential through different kinds of code, which use different lock and cache keys, are not combined.
- The Google refresh never rotates its token and takes no lock; only Notion stands for the paths without a lock. What its overlapping calls present is stated for endpoints that never issue a token twice.
- Token lifetimes are whole seconds in unbounded integers: overflow of Go's duration is not modelled.
- Liveness: a second sender can block on a full channel, and nothing is claimed about calls that never finish.
- YAML comments, anchors, tags and styles, and what aliases point to; of a mapping's keys only the text is kept, by which the code compares them. The document node around a file is not modelled.
- `path.Clean` is the walk over segments that it documents; `path.Match`, case folding and port splitting are arbitrary functions.
- How a scope's identifier is made from its name: identifiers are arbitrary. The frontend's listing of scopes.
- JSON of stored services is faithful in the model; JSON `null` entries, which Go reads as empty, count as unreadable.
- `Kms.HandleBroker`: a body that is too long or malformed is one that is absent; that the client's own bodies stay within 64 KiB is taken for granted.
- `ServiceRequests.ApplyServices`: when it fails, the request is dropped by its callers, so what it had set by then is not stated. How header names are brought into canonical form is arbitrary; a raw query that does not parse is not modelled.
- `Services.NormalizeInPlace` works on shared records, but the index calls its function on values, so writes that Put makes through its caller's host list do not show there.
- Which credential a service or provider implies is a set of ids; credential types, optional-field defaults and the client configuration checks of each provider are easy members.
- `SignedState.ChangedKeyRejects`: rests on a hash without collisions; no cryptographic claim is made.
- Signed states carry a nonce that nothing remembers, so a signed state is accepted as often as it is presented within its time; the ten-minute limit belongs to the callbacks.
- SQLite, Kubernetes, the external webhook, certificates, logging, regular expression masking and expansion of environment variables.
