# PROM request service: a verified model

This project models the logic of the PROM agent-to-agent request service in Dafny and proves what its parts promise.
Each module is named after the part it models; `dafny verify dfyconfig.toml` checks everything.

- **Canonical requests** (`Utf16`, `Decimal`, `Json`, `JsonRoundTrip`, `Canonicalization`, `CanonicalForm`):
  JSON values as in RFC 8259, printed as in section 25.5.2 of ECMA-262 over UTF-16 code units, a reader that undoes the
  printing, the deep key sort with the own-property order of ECMA-262, and the exact conditions under which two requests
  get one string.
- **Text compilers** (`Wildcard`, `Policy`, `Like`, `Listing`, `Catalog`): access patterns compiled to regular
  expressions (section 22.2 of ECMA-262), search terms compiled to LIKE patterns (section 9.7.1 of the PostgreSQL
  manual), each with a reader for the generated text, a matching relation and its plain meaning; access decisions and
  catalog listings on top.
- **Stores that forget** (`Did`, `NonceStore`, `RefreshTokens`, `GaugeCache`): classes with evictions, compared over
  whole runs with logs that never forget. Clock readings are parameters, one for each reading the code makes.
- **Chain interaction** (`Confirmation`, `NonceManager`, `Retry`, `AgentRegistry`, `Registration`, `CallOutcomes`,
  `IdentityService`, `ReceiptPoller`): each environment is an adversary that reorganizes, loses replies, mines late or rejects.
- **Metering** (`Rollup`, `RollupRuns`, `UsageJoin`, `Protocol`, `ProtocolRuns`, `Billing`): raw records, hourly rollups,
  the gauge join, the request pipeline as many calls that may stop at any await, and bills against rollups.

Methods of the original that change fields are methods of a class here; each is proved equal to one step of a pure
specification, and the theorems are about runs of those steps. Operations of the runtime, the network, the database and
the clock are parameters: the chain seen by each read, the answer and latency of each call, the order in which a
database returns groups, the outcome of each save.

Where the code and its own words differ, the model follows the code, and a theorem says exactly when the two agree:

- A wildcard crosses `:`, although its comment speaks of a single segment: the two readings agree on a match if and only
  if the value has as many colons as the pattern (`Wildcard.SingleSegmentIff`).
- An agent without any access constraint is open to all, although the comment gives deny as the default
  (`Policy.UnconstrainedAllows`, and exactly when in `Policy.VerdictIsPrecedence`).
- Canonical strings do not tell a `__proto__` key from its absence, an overflowed number from null, nor -0 from 0, and
  lose nothing else (`CanonicalForm.PlainIff`, `CanonicalForm.NotPlainCollides`).
- The finality recheck compares block numbers and not statuses (`Confirmation.StatusMayFlipIff`).
- Revoking without an expiry holds for every issued token if and only if the fallback is no shorter than both lifetimes
  (`RefreshTokens.NoExpiryCoversIff`).
- `findAll` with an empty service id lists every tariff (`Catalog.BatchedAgreesIff`).
- A contract call can be rejected although its change is in effect: a registration or deactivation if and only if an
  applied transaction lost its reply or had been left pending (`CallOutcomes.RejectedButDoneIff`).
- The usage gauge counts a record as rolled up when its hour has a row, although the row may have been computed before
  the record came: it is right if and only if no record of the window came after the last writer of its key had read
  the table (`UsageJoin.RolledUpIsTrueIff`).
- Rollups are idempotent one after another; overlapping ones agree with the raw records if and only if every record was
  read by the run that last wrote its key (`RollupRuns.OverlappingRunsConserve`).

## Model

| member | source | states |
|---|---|---|
| JsonRoundTrip.ReadPrint | src/common/crypto/request-canonicalization.ts:45 | A reader of JSON takes the printed text of every value back to the value as shown (-0 as 0, an overflowed number as null), whatever text follows; after a bare number the text must not go on with the numeral. |
| JsonRoundTrip.ReadPrintedNumber | src/common/crypto/request-canonicalization.ts:45 | The printed form of every number, in plain, fraction and exponent notation, reads back as that number. |
| JsonRoundTrip.ReadQuoted | src/common/crypto/request-canonicalization.ts:45 | Every quoted string, control characters and lone surrogates included, reads back as its code units. |
| JsonRoundTrip.PrintInjective | src/common/crypto/request-canonicalization.ts:45 | Two values print alike if and only if they are shown alike: printing loses nothing else. |
| CanonicalForm.KeyLessTotal | src/common/crypto/request-canonicalization.ts:22-27 | In the order in which a rebuilt object lists its keys (array indices by value, then code units) any two keys are comparable, in one way only. |
| CanonicalForm.KeyLessTransitive | src/common/crypto/request-canonicalization.ts:22-27 | That order is transitive. |
| CanonicalForm.AssignAllKeeps | src/common/crypto/request-canonicalization.ts:24-27 | Assigning members in code-unit order, with array indices moving to the front and `__proto__` swallowed by its setter, ends in the fixed key order with every other member present. |
| CanonicalForm.SortKeysDeepNormal | src/common/crypto/request-canonicalization.ts:16-30 | The sorted value lists the keys of every object, at every depth, in the fixed order. |
| CanonicalForm.SortKeysDeepMeaning | src/common/crypto/request-canonicalization.ts:16-30 | Sorting keeps the key-to-value meaning at every depth and the order of every array, `__proto__` keys aside. |
| CanonicalForm.NormalUnique | src/common/crypto/request-canonicalization.ts:16-30 | There is only one normal value for each meaning: the key order is all that sorting can choose. |
| CanonicalForm.SortKeysDeepIdempotent | src/common/crypto/request-canonicalization.ts:16-30 | Sorting twice is sorting once. |
| CanonicalForm.SortKeysDeepIgnoresOrder | src/common/crypto/request-canonicalization.ts:16-30 | Reordering keys at any depth does not change the sorted value. |
| CanonicalForm.ReadCanonical | src/common/crypto/request-canonicalization.ts:35-46 | The canonical string followed by any text reads back as the normalized envelope and that text. |
| CanonicalForm.CanonicalIff | src/common/crypto/request-canonicalization.ts:35-46 | Two requests get one canonical string if and only if the fixed fields and the present optional fields agree and the payloads mean the same up to what a string can show. |
| CanonicalForm.CanonicalPlainIff | src/common/crypto/request-canonicalization.ts:35-46 | For payloads of plain numbers without `__proto__` keys: same string if and only if same fields and same payload up to key order. |
| CanonicalForm.PlainIff | src/common/crypto/request-canonicalization.ts:16-30 | A payload loses nothing on its way into the string exactly when it is plain. |
| CanonicalForm.NotPlainCollides | src/common/crypto/request-canonicalization.ts:16-46 | Every payload that is not plain shares its canonical string with a request that means something else. |
| CanonicalForm.CollisionExamples | src/common/crypto/request-canonicalization.ts:25 | The two concrete collisions: a `__proto__` key against an empty object, an overflowed number against null. |
| Wildcard.RegexSourceReads | src/modules/policy/policy-evaluator.ts:30 | The generated regular-expression text reads back as exactly the literals and any-runs of the pattern between the two anchors, for every pattern. |
| Wildcard.MatchIsSplit | src/modules/policy/policy-evaluator.ts:31 | The regular-expression matcher on those terms accepts a text exactly when the text splits into the pieces of the pattern. |
| Wildcard.MatchWildcardIff | src/modules/policy/policy-evaluator.ts:26-32 | A pattern always compiles, and a value matches if and only if the pattern is the bare `*` or the value splits into its literals in order with runs free of line terminators. |
| Wildcard.PrefixPattern | src/modules/policy/policy-evaluator.ts:22-32 | `prefix*` matches exactly the extensions of the prefix without a line terminator, colons included. |
| Wildcard.SingleSegmentIff | src/modules/policy/policy-evaluator.ts:22-32 | For every pattern and value, the value matches with every star inside one `:`-separated segment, as the comment promises, if and only if the code matches it and it has as many colons as the pattern. |
| Wildcard.CrossesSegments | src/modules/policy/policy-evaluator.ts:24 | A failing input: `did:prom:*` matches `did:prom:a:b`, which the single-segment reading refuses. |
| Policy.VerdictIsPrecedence | src/modules/policy/policy-evaluator.ts:49-88 | The verdict and its reason are those of the documented precedence, stated over which entries match and not over the order in which they are tried. |
| Policy.UnconstrainedAllows | src/modules/policy/policy-evaluator.ts:57-64 | The input on which the default is not deny: a ruleset without any entry allows everything. |
| Policy.VerdictIgnoresOrder | src/modules/policy/policy-evaluator.ts:53-88 | Permuting or repeating entries of any list, inside rules too, changes neither verdict nor reason. |
| Policy.DenyEntriesOnlyDeny | src/modules/policy/policy-evaluator.ts:66-76 | Adding deny rules or denylist patterns never turns a denial into an allow. |
| Policy.AllowEntriesDenyOnlyTheFirstTime | src/modules/policy/policy-evaluator.ts:57-88 | Adding allow entries turns an allow into a denial exactly when the ruleset had no constraint before and the new entries do not match. |
| Policy.PolicyEvaluatorService.AssertAllowed | src/modules/policy/policy-evaluator.service.ts:18-45 | Passes if and only if every active policy of the agent allows; records exactly one decision, with the outcome, and the reason of the first denial or of the last allow. |
| Policy.AllAllowIgnoresOrder | src/modules/policy/policy-evaluator.service.ts:19-40 | The outcome does not depend on the order in which the policies are found. |
| Like.UnescapeEscape | src/modules/catalog/catalog.service.ts:62-64 | Unescaping an escaped search term gives the term back. |
| Like.ContainsPatternReads | src/modules/catalog/catalog.service.ts:38-42 | The pattern of the query reads as any text, the literal characters of the term, any text: no character of the term is a wildcard. |
| Like.SearchFindsSubstrings | src/modules/catalog/catalog.service.ts:38-42 | The pattern is well formed and matches a value if and only if the term occurs in it, under any case folding of single characters. |
| Listing.NewestFirstSorts | src/modules/pricing/pricing.service.ts:25 | The newest-first order is a permutation of the rows with descending times. |
| Listing.FilterNewestFirst | src/modules/pricing/pricing.service.ts:45-48 | Filtering the ordered rows gives what ordering the filtered rows gives, ties included. |
| Catalog.PricingService.FindByServiceIds | src/modules/pricing/pricing.service.ts:40-55 | For every list of ids, repeated or empty: each id gets its tariffs newest first, and the map holds nothing else. |
| Catalog.GroupFilters | src/modules/pricing/pricing.service.ts:49-53 | Each bucket of the grouping loop is the sub-list of its service in the order found. |
| Catalog.GroupIsLookup | src/modules/pricing/pricing.service.ts:40-55 | The bucket of a requested id is the newest-first per-service lookup. |
| Catalog.BatchedAgreesIff | src/modules/pricing/pricing.service.ts:22-27 | The batched list of an id equals `findAll({ serviceId })` if and only if the id is non-empty or no other tariff exists: an empty id lists every tariff. |
| Catalog.EachTariffLandsOnce | src/modules/pricing/pricing.service.ts:49-53 | Over distinct requested ids, each tariff of one of them lies in exactly one bucket exactly as often as in the table, every other tariff in none. |
| Catalog.CatalogService.FindAll | src/modules/catalog/catalog.service.ts:32-54 | The page is the requested slice of the matching services, newest first; with tariffs, each service carries what a lookup of its own would give, repeated ids included. |
| Catalog.SearchSelects | src/modules/catalog/catalog.service.ts:38-42 | A non-empty search keeps exactly the services of the agent whose name or description contains the term. |
| Did.DidColons | src/common/validators/field.validators.ts:8 | A DID has exactly two colons. |
| Did.KeyInjective | src/modules/protocol/nonce-store.service.ts:43 | `agent:nonce` determines agent and nonce when the agents are DIDs. |
| NonceStore.NonceStoreService.EvictExpired | src/modules/protocol/nonce-store.service.ts:63-70 | The eviction loop removes exactly the entries older than the window, in any visiting order. |
| NonceStore.NonceStoreService.OnTimer | src/modules/protocol/nonce-store.service.ts:35 | The background timer is an eviction step. |
| NonceStore.NonceStoreService.AssertFresh | src/modules/protocol/nonce-store.service.ts:41-49 | One call of the store, as the step of its specification, with separate clock readings for eviction and storing. |
| NonceStore.NonceStoreService.Size | src/modules/protocol/nonce-store.service.ts:52-55 | Counts the entries left by eviction, as the step of the specification. |
| NonceStore.StepAgrees | src/modules/protocol/nonce-store.service.ts:41-70 | One step of the forgetful store and of a log that never forgets answer alike and stay related. |
| NonceStore.SizeCountsPairs | src/modules/protocol/nonce-store.service.ts:52-55 | After eviction the number of entries is the number of (agent, nonce) pairs accepted within the window. |
| NonceStore.ForgettingIsInvisible | src/modules/protocol/nonce-store.service.ts:41-70 | Over every run of DID agents with a non-decreasing clock and timer evictions anywhere, acceptances, rejections and sizes are those of a log that never forgets, the window boundary included. |
| NonceStore.FaithfulIff | src/modules/protocol/nonce-store.service.ts:41-70 | Over any set of (agent, nonce) pairs, every clocked run answers as the full log does if and only if no two of the pairs share a key. |
| NonceStore.OtherAgentsCanCollide | src/modules/protocol/nonce-store.service.ts:43 | A witness without the DID grammar: two different pairs share a key and the second is wrongly refused. |
| RefreshTokens.RefreshTokenService.EvictExpired | src/common/auth/refresh-token.service.ts:104-109 | The eviction loop removes exactly the entries whose expiry is not after now. |
| RefreshTokens.RefreshTokenService.Rotate | src/common/auth/refresh-token.service.ts:59-83 | One rotation with five separate clock readings: evict, refuse revoked or invalid tokens, revoke before issuing; both new tokens name the subject, DID and role of the spent one. |
| RefreshTokens.RefreshTokenService.Revoke | src/common/auth/refresh-token.service.ts:85-92 | Revocation with the given expiry, or the fallback from the settings. |
| RefreshTokens.RefreshTokenService.IsRevoked | src/common/auth/refresh-token.service.ts:94-97 | Membership after eviction. |
| RefreshTokens.SpentNeverRotates | src/common/auth/refresh-token.service.ts:59-109 | Over every run, a token that rotated or was revoked never rotates later although entries are forgotten, when manual revocations cover it. |
| RefreshTokens.BarredNeverRotates | src/common/auth/refresh-token.service.ts:59-109 | The invariant behind it: a listed entry that outlasts the token, or an expired token, bars every later rotation. |
| RefreshTokens.RevokeHoldsIff | src/common/auth/refresh-token.service.ts:85-92 | A manual revocation holds at every later time if and only if its expiry is not before the token's, or the token has expired already. |
| RefreshTokens.NoExpiryCoversIff | src/common/auth/refresh-token.service.ts:85-92 | Revoking without an expiry covers every token that the settings can issue if and only if the fallback lifetime is no shorter than both configured lifetimes. |
| RefreshTokens.NoExpiryCovers | src/common/auth/refresh-token.service.ts:85-92 | With settings of the plain form and access lifetime at most refresh lifetime, it does. |
| RefreshTokens.IssuedByService | src/common/auth/refresh-token.service.ts:39-57 | Every token of an issued pair expires within one configured lifetime of its issue. |
| RefreshTokens.IssuedTokenIsSpentOnce | src/common/auth/refresh-token.service.ts:39-109 | With such settings, every token the service issues rotates at most once in whatever follows, and not after a proper revocation. |
| RefreshTokens.OtherSettingsForget | src/common/auth/refresh-token.service.ts:115-120 | With `2 days`, which the fallback reads as one hour, a revoked token rotates again. |
| GaugeCache.DomainGaugesService.Refresh | src/observability/domain-gauges.service.ts:95-97 | The part of a call before its await: cached answer, joining the load in flight, or starting one. |
| GaugeCache.DomainGaugesService.OnLoaded | src/observability/domain-gauges.service.ts:158-163 | A successful load sets all gauges in one go. |
| GaugeCache.DomainGaugesService.OnLoadFailed | src/observability/domain-gauges.service.ts:99-109 | A failed load changes no gauge. |
| GaugeCache.DomainGaugesService.OnThen | src/observability/domain-gauges.service.ts:100-102 | The `then` callback stamps the refresh time of the call that started the load. |
| GaugeCache.DomainGaugesService.OnCatch | src/observability/domain-gauges.service.ts:103-108 | The `catch` callback counts the failure and nothing else. |
| GaugeCache.DomainGaugesService.OnFinally | src/observability/domain-gauges.service.ts:109-113 | The `finally` callback clears the flight and answers everyone who waited for it. |
| GaugeCache.StepKeeps | src/observability/domain-gauges.service.ts:95-114 | Every step keeps the invariant that ties cache fields, flight, gauges and waiting calls together. |
| GaugeCache.CacheIsSound | src/observability/domain-gauges.service.ts:95-114 | In every interleaving with increasing positive times: at most one load runs, gauges show the last successful load only, successful load starts are at least the lifetime apart, and a call that met no failure saw a load younger than the lifetime or in flight when it came. |
| Confirmation.AwaitFinal | src/blockchain/confirmation-policy.ts:5-22 | The polling loop ends with the first round of three reads that passes all three tests, and not before; each read sees its own chain, and a read that rejects before then ends the wait with that error. |
| Confirmation.FinalStays | src/blockchain/confirmation-policy.ts:10-19 | Whenever reorganizations replace at most `confirmations` blocks and the head never falls, after the wait the transaction stays in the observed block in every later chain, with the status the recheck saw. |
| Confirmation.SettledIsFinal | src/blockchain/confirmation-policy.ts:11-21 | A transaction that is deep enough and stays put ends the wait within five reads. |
| Confirmation.RecheckNeededIff | src/blockchain/confirmation-policy.ts:16-17 | For any number of confirmations and any reorganization depth, without the recheck the wait could end on a dropped transaction if and only if the depth is positive. |
| Confirmation.StatusMayFlipIff | src/blockchain/confirmation-policy.ts:17 | The recheck does not look at the status: for any number of confirmations and any reorganization depth, the wait can end on a failed transaction if and only if the depth is positive. |
| Confirmation.DepthIsExact | src/blockchain/confirmation-policy.ts:15 | A final transaction can vanish exactly when reorganizations go deeper than `confirmations`. |
| Confirmation.ReorganizesTransitive | src/blockchain/confirmation-policy.ts:11-21 | One bounded step between two reads stands for any number of them. |
| NonceManager.NonceManager.Reserve | src/blockchain/nonce-manager.ts:10-18 | A reservation is chained to the promise the queue holds and becomes the queue. |
| NonceManager.NonceManager.OnTurn | src/blockchain/nonce-manager.ts:11-15 | When the predecessor has settled: fetch if no nonce is known, else take the next nonce and call. |
| NonceManager.NonceManager.OnFetchResolved | src/blockchain/nonce-manager.ts:12-15 | The fetched nonce goes to the call that fetched it and the next one is stored. |
| NonceManager.NonceManager.OnFetchRejected | src/blockchain/nonce-manager.ts:12 | A failed fetch settles the reservation and stores no nonce. |
| NonceManager.NonceManager.OnCallbackSettled | src/blockchain/nonce-manager.ts:15-17 | The callback's outcome settles the reservation and changes no nonce. |
| NonceManager.NoncesAreSerialized | src/blockchain/nonce-manager.ts:10-19 | In every interleaving of reservations, failing fetches and failing callbacks: one reservation is served at a time, callbacks run in reservation order with consecutive nonces from the only successful fetch, and exactly the reservations that got a nonce called back. |
| NonceManager.RunsEnd | src/blockchain/nonce-manager.ts:11-17 | Without new reservations a run makes at most as many steps as the unsettled reservations have left, rejections or not. |
| NonceManager.StoppedMeansSettled | src/blockchain/nonce-manager.ts:17 | Nothing can go on if and only if every reservation is settled: no rejection blocks a later one. |
| Retry.WithRetry | src/common/blockchain/retry.util.ts:37-67 | The loop makes the calls, the waits and the end of its recursive specification, for any operation acting on any world. |
| Retry.LastAnswerIsPassedOn | src/common/blockchain/retry.util.ts:49-65 | From 1 to `maxAttempts` calls; all but the last failed with a retryable error, the last succeeded, failed for good or was the last allowed, and its value or error is passed on. |
| Retry.RunsIff | src/common/blockchain/retry.util.ts:49-66 | The operation runs if and only if an attempt is allowed, otherwise undefined is thrown and nothing happens; the number of calls is the only one at which the loop may end. |
| Retry.WaitsFollowDelays | src/common/blockchain/retry.util.ts:58-63 | The k-th wait is the k-th delay of the recurrence under its own random number. |
| Retry.DelayIsCapped | src/common/blockchain/retry.util.ts:63 | With factor at least 1, the k-th delay from the second on is min(initial * factor^(k-1), max). |
| Retry.ScheduleIff | src/common/blockchain/retry.util.ts:63 | The delays follow that schedule if and only if the factor is at least 1 or the first product does not exceed the cap. |
| Retry.TotalWait | src/common/blockchain/retry.util.ts:58-62 | The jittered total is at least half and less than one and a half times the unjittered sum, and equal to it without jitter. |
| Retry.RetryKeeps | src/common/blockchain/retry.util.ts:37-67 | What every attempt keeps the retried call keeps. |
| AgentRegistry.AgentRegistry.RegisterAgent | contracts/src/AgentRegistry.sol:26-44 | Stores the record of a new DID, or reverts with the reason and no change. |
| AgentRegistry.AgentRegistry.UpdateAgent | contracts/src/AgentRegistry.sol:46-58 | Writes key and endpoint of an active record of the sender, or reverts. |
| AgentRegistry.AgentRegistry.DeactivateAgent | contracts/src/AgentRegistry.sol:60-67 | Deactivates an active record of the sender, or reverts. |
| AgentRegistry.AgentRegistry.GetAgent | contracts/src/AgentRegistry.sol:69-73 | Finds exactly the DIDs that have an owner. |
| AgentRegistry.HistoryDecides | contracts/src/AgentRegistry.sol:26-67 | After every run each record is determined by the transactions of its DID: owner and time of the first registration, key and endpoint of that owner's last write before its first deactivation, active until then. |
| AgentRegistry.RunContinues | contracts/src/AgentRegistry.sol:26-67 | Over every run owner, DID and registration time never change and an inactive record stays as it is. |
| Registration.RegistersOnce | src/modules/identity/identity.service.ts:76-83 | Whatever each attempt meets (not sent, reply lost after mining, mined late) and whatever happens afterwards, the DID is registered at most once, never overwritten, and present with the given key and endpoint once the call resolves. |
| Registration.ResolvedMeansDone | src/modules/identity/identity.service.ts:121-163 | A retried update or deactivation that resolves is in effect, and late duplicates do not undo it. |
| CallOutcomes.LandsIff | contracts/src/AgentRegistry.sol:26-67 | When the transaction of a call would be applied: a registration where there is no record, an update or deactivation where the signer's record is active. |
| CallOutcomes.ResolvesIff | src/modules/identity/identity.service.ts:76-163 | A registration, update or deactivation resolves if and only if, in some attempt that is made, its own transaction is applied and the reply arrives; it is rejected with its change in effect if and only if none does and the change was in effect before, or a transaction was applied that lost its reply or had been left pending. |
| CallOutcomes.RejectedButDoneIff | src/modules/identity/identity.service.ts:76-163 | A registration of a fresh DID or a deactivation of an active agent is rejected with its change in effect if and only if, in an attempt that is made, a transaction is applied whose reply is lost or that an earlier attempt had left pending. |
| CallOutcomes.LostReplyRejects | src/modules/identity/identity.service.ts:76-163 | A witness for all three calls: when every reply is lost the call rejects with its message although the change is in effect. |
| Registration.TryIsGood | src/modules/identity/identity.service.ts:77-80 | One attempt keeps the at-most-once invariant and undoes nothing. |
| IdentityService.IdentityService.CallRegistry | src/modules/identity/identity.service.ts:69-89 | The guarded, retried chain call whose failure is swallowed. |
| IdentityService.IdentityService.Register | src/modules/identity/identity.service.ts:33-92 | Forbidden and conflict leave table and chain untouched, and a registration of the same DID that slips in before the save makes the unique column refuse it; otherwise one row is added under a unique DID and the registration of that row is sent. |
| IdentityService.IdentityService.Update | src/modules/identity/identity.service.ts:110-138 | Only the named row changes, to the merged row; the chain call is made exactly when key or endpoint is given. |
| IdentityService.IdentityService.Deactivate | src/modules/identity/identity.service.ts:140-168 | Only the status of the named row changes, and the deactivation is sent. |
| IdentityService.RegistrationAgrees | src/modules/identity/identity.service.ts:63-92 | When the chain call of a registration resolves, row and record agree, for good, from one registration event. |
| ReceiptPoller.PollReceipt | src/blockchain/receipt-poller.ts:5-22 | For any options, zero and negative delays included, the polling loop terminates and ends as its specification says. |
| ReceiptPoller.EndsWithFirst | src/blockchain/receipt-poller.ts:15-21 | It ends with the first call that answers or comes back empty after the timeout, at the time the doubling schedule gives. |
| ReceiptPoller.EndsInTime | src/blockchain/receipt-poller.ts:13-21 | For any options it ends with its first call, or within the timeout plus one maximal delay plus the last call and how late the last timer fired. |
| ReceiptPoller.GivesUpIff | src/blockchain/receipt-poller.ts:16-18 | It times out exactly when no call found anything, never before the timeout; a receipt found after the timeout is still returned. |
| ReceiptPoller.CallsAreBounded | src/blockchain/receipt-poller.ts:19-20 | All waits but the last fit in the timeout. |
| ReceiptPoller.CallsFollowDoubling | src/blockchain/receipt-poller.ts:19-20 | Those waits are the geometric sum of the doubling delays up to the cap, then one cap each, which bounds the number of calls. |
| Rollup.HoursTile | src/modules/metering/metering-rollup.job.ts:8-12 | Each instant lies in exactly one hour bucket, the one it truncates to. |
| Rollup.MeteringRollupJob.Rollup | src/modules/metering/metering-rollup.job.ts:59-113 | The query and the upsert loop: a run writes the aggregates, or the prefix before the upsert that fails, with that upsert when it was committed and only the reply was lost, or nothing when the query fails; it returns their number, 0 when there are none. |
| Rollup.MeteringRollupJob.RunHourlyRollup | src/modules/metering/metering-rollup.job.ts:46-57 | Counts each run once, as success or failure, and passes the outcome on. |
| Rollup.GroupIsKey | src/modules/metering/metering-rollup.job.ts:63-75 | Grouping a window by agent is grouping all records by agent and truncated hour. |
| Rollup.UpsertAt | src/modules/metering/metering-rollup.job.ts:90-107 | An upsert changes the one row of its key and no other, and keeps keys unique. |
| Rollup.RollupsHoldCovered | src/modules/metering/metering-rollup.job.ts:59-113 | In every state the rollups of any agents are, in every metric, the totals of exactly the records that the last writer of their key had read. |
| Rollup.ConservedIff | src/modules/metering/metering-rollup.job.ts:59-113 | Rollups and raw records of any agents agree if and only if every record of those agents is covered in that sense. |
| RollupRuns.RunTouchesOneHour | src/modules/metering/metering-rollup.job.ts:59-113 | A run never changes a row of another hour and adds only rows of its own. |
| RollupRuns.RerunChangesNothing | src/modules/metering/metering-rollup.job.ts:89-108 | Running an hour again on the same records, in any group order and even cut off, changes no row. |
| RollupRuns.RerunRecovers | src/modules/metering/metering-rollup.job.ts:89-108 | A run cut off anywhere and run again leaves what an uninterrupted run leaves. |
| RollupRuns.RollupsConserve | src/modules/metering/metering-rollup.job.ts:46-113 | After rollups in any order, repeated or cut off, if each hour's last complete run came after the hour's last record, rollups and raw records of any agents have the same totals in every metric. |
| RollupRuns.OverlappingRunsConserve | src/modules/metering/metering-rollup.job.ts:46-113 | In every state reached with overlapping runs and crashes rows are unique, rollups never exceed the raw count, and the totals of any agents agree if and only if every record of theirs was read by the run that last wrote its key. |
| RollupRuns.OverlapCanLose | src/modules/metering/metering-rollup.job.ts:63-108 | A witness: two overlapping runs both complete, one reads after the last record, and still the rollup is short of a record. |
| UsageJoin.AddsUpIff | src/observability/domain-gauges.service.ts:138-155 | pending + rolled_up is at least the number of records in the window, and equal if and only if no record matches two rollup rows. |
| UsageJoin.GaugesSplitTheWindow | src/observability/domain-gauges.service.ts:138-162 | In every reachable state, overlapping runs included, pending counts the records of the window without a row and rolled_up the rest. |
| UsageJoin.UniqueMatchesOnce | src/migrations/1716000000000-AddUsageRollups.ts:20 | Rows unique per agent and hour match a record at most once. |
| UsageJoin.LagIsAgeOfOldest | src/observability/domain-gauges.service.ts:147-163 | The lag is the age of the oldest pending record of the window, or 0 when there is none, and never negative. |
| UsageJoin.CompletedPassClearsPending | src/modules/metering/metering-rollup.job.ts:89-108 | In every reachable state, whatever overlaps: once a run has made all its upserts, no record of its hour that it read is pending, then or at any later state. |
| UsageJoin.RolledUpStays | src/modules/metering/metering-rollup.job.ts:89-108 | No event of any interleaving makes a record pending that was not. |
| UsageJoin.FalselyRolledUpIff | src/observability/domain-gauges.service.ts:145-146 | A record is counted as rolled up without being in a rollup if and only if its key has been written by a run that read the table before the record. |
| UsageJoin.RolledUpIsTrueIff | src/observability/domain-gauges.service.ts:138-162 | In every reachable state rolled_up is at least the number of window records that the rollups hold, and equal to it if and only if no window record came after the last writer of its key had read the table. |
| UsageJoin.LateRecordLooksRolledUp | src/observability/domain-gauges.service.ts:145-146 | A reachable witness: one record more than the rollups hold is shown as rolled up, none as pending. |
| Protocol.ProtocolService.Arrive | src/modules/protocol/protocol.service.ts:51-53 | The synchronous start of a call: the nonce check, only for a non-empty nonce. |
| Protocol.ProtocolService.PolicyAnswered | src/modules/protocol/protocol.service.ts:55-82 | The call is denied if and only if some active policy of the callee denies; otherwise its metrics are the length of its payload, that length over four rounded up, and the length of the result whose hash it keeps; no other call moves. |
| Protocol.ProtocolService.RecordUsage | src/modules/metering/metering.service.ts:21-24 | Appends one usage row, also when the reply of the save is lost. |
| Protocol.ProtocolService.SignReceipt | src/modules/metering/metering.service.ts:37-47 | A signed call carries metrics and result hash on unchanged, a failing signature stops it, and in either case no table and no other call changes. |
| Protocol.ProtocolService.SaveReceipt | src/modules/metering/metering.service.ts:49-62 | Appends one receipt with the metrics and price of the call. |
| Protocol.ProtocolService.HandleRequest | src/modules/protocol/protocol.service.ts:22-124 | A whole call: exactly when it fails at which stage, an unreadable policy table included, and exactly which rows it leaves in the two tables for each outcome. |
| ProtocolRuns.ReceiptsAreMetered | src/modules/protocol/protocol.service.ts:84-103 | In every interleaving and failure, each receipt bills its own usage row, saved before it, with the same session, tokens and bytes and the price of those tokens; no two receipts or rows share a call. |
| ProtocolRuns.StoppedCallsLeaveNothing | src/modules/protocol/protocol.service.ts:51-59 | Replayed and denied calls leave no row in either table. |
| ProtocolRuns.CompletedCallsLeaveBoth | src/modules/protocol/protocol.service.ts:84-123 | A completed call has left a receipt and the usage row it bills. |
| ProtocolRuns.BilledNeverExceedsMetered | src/modules/protocol/protocol.service.ts:76-103 | For any sessions, the billed amount is 10000 units of 1e-8 for each token of exactly the usage rows whose call got a receipt: never more than metered, and all of it if and only if every usage row of those sessions has a receipt. |
| ProtocolRuns.ReplaysAreNotMetered | src/modules/protocol/protocol.service.ts:51-53 | Two metered calls with the same agent and non-empty nonce were accepted more than the replay window apart. |
| ProtocolRuns.SameHashSameRequest | src/modules/protocol/protocol.service.ts:37-45 | Two requests have one request hash if and only if every field of their bodies and the visible payloads agree, code unit by code unit. |
| ProtocolRuns.SameHashSameCall | src/modules/protocol/protocol.service.ts:97-103 | Two receipts of any run with one request hash come from calls with the same agents, session, nonce and visible payload. |
| Billing.BilledAgainstRollups | src/modules/metering/metering-rollup.job.ts:59-113 | From requests to rollups to bills: over any pipeline run and any overlapping rollup runs on its table, once every record is covered the bill is at most the price of the rolled tokens, and exactly that if and only if every usage row has its receipt. |

## Left out

- Cryptography: hashes, signatures and signed tokens are constructors of datatypes, hence free of collisions.
- Database errors in reads and saves of agents, services, tariffs and policies, apart from the unique DID column and an unreadable policy table: they pass through as exceptions.
- The database engine: tables are sequences in insertion order or maps, `ORDER BY` is stable, times are UTC milliseconds; `updatedAt` and generated ids are not kept, and integer columns do not overflow.
- Floating point: prices are integers in units of 1e-8, waits are real numbers, finite JSON numbers are their shortest digits.
- Payload members that JSON.stringify skips (undefined values and functions) and objects with a `toJSON` method.
- `trim` of the search term and the case mapping of ILIKE: the term comes trimmed and the folding is any function of single characters.
- Confirmation.AwaitFinal: waits without end in the original; here it also stops when the trace of chains ends, which is then told apart from finality.
- ReceiptPoller.CallsFollowDoubling: speaks of delays that a timer of Node.js takes as they are, from 1 ms to 2^31 - 1 ms.
- Retry.ScheduleIff: takes the first delay and the factor as not negative and the cap as positive.
- Registration.RegistersOnce: assumes that no other account registers the DID and that the signer sends nothing else for it meanwhile, as the property itself does.
- Registration.ResolvedMeansDone: does not order transactions of different calls by account nonce, so it speaks of one call and its own duplicates.
- IdentityService.IdentityService.Register: takes the verification of the owner signature as a given truth value.
- UsageJoin.LagIsAgeOfOldest: in milliseconds, not seconds.
- Billing.BilledAgainstRollups: relates the two machines by their common table and does not model the creation time of a row in the pipeline.
- The agent and service counts of the gauges, and the timer that starts hourly rollups: a record whose hour sees no later run is never rolled up.
- RefreshTokens.SpentNeverRotates: speaks of tokens with an expiry, which every token issued by the service has.
- `ServiceCatalog.sol` and `TariffRegistry.sol`: insert-once maps that would add only easy members beside the agent registry.
- Agreement of off-chain and on-chain agent status: failures of chain calls are only logged, so the two may differ.
- `createReceipt` and directly posted usage records: rows supplied by callers, not part of the request pipeline.
- Controllers, request validation other than the DID grammar, guards, interceptors, configuration, logging, tracing and dashboards.
- `SanitizePipe`, `ApiKeyService`, `CsrfMiddleware`, `PasswordService` and health probes: small branches around library calls.
