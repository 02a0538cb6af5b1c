# Verified model of the prerender service's stateful core

This Dafny 4.11 project models the parts of a multi-tenant prerender service whose
correctness depends on how many operations follow each other or interleave, and proves
what holds over every run of them. To verify the whole project, use
`dafny verify dfyconfig.toml`.

## What is modelled

Each stateful component appears twice: as a class (or a method with the source's loop)
whose methods are proved equal, call by call, to functions on values; and as a state
machine built from those functions, over whose runs the lemmas speak. Asynchronous code
is a set of steps that interleave freely.

* **Render cache** (`HtmlObjectStore`, `CacheRepository`, `CacheStorageService`,
  `CacheProtocol`, `CacheSafety`, `CacheHistory`, `CachePresence`, `CacheTwins`, `CacheAnswers`). A
  commit puts an object, swaps the
  metadata row if its generation is still the expected one, and deletes the object when
  the swap was lost. Any number of commits interleave step by step with failure marks,
  invalidations, row creation, failing store operations and abandoned commits.
  `CacheStorageKey` is the printer and the parser of storage keys, `CacheIdentity` the
  hashed identity, `CachePolicy` the freshness window.
* **Sitemap crawl** (`SafeHttpClient`, `SitemapFetch`, `SitemapParser`,
  `SitemapPersistence`, `SitemapRows`). A redirect loop under a recursive crawl that shares two
  counters, against a web that may answer differently at every request; the event
  machine that reads a sitemap; the recursive upsert of the resulting tree in one
  audited transaction.
* **Render capacity** (`RenderCapacity`, `RenderOutcomes`). Slots, a bounded queue, timers and close.
* **API keys** (`AuditedTransactions`, `ApiKeys`, `ApiKeyLineage`, `ApiKeyAuditTrail`). Creation, rotation in
  one locked transaction, and revocation as a read, a second lookup and a later write, each
  committed with its audit row, with a fault possible at every statement and at commit.
* **Rate limiters** (`RateLimiter`, `VerificationLimiter`). An anchored fixed window and
  a sliding log, compared with the full history of what they granted.
* **Audit listing** (`AuditPaging`, `AuditWalk`). Keyset pagination with an opaque
  cursor, over a table that grows between pages.

SHA-256, the codecs, URL validation and normalisation, date, uuid and base64url texts,
and the network are function parameters. Where a law about them is needed it is a named
predicate (`Lawful`, `Sound`). No hash is ever taken to be injective, which no hash is:
a statement that depends on it says "or here is a collision".

## Where the code and its own words differ

* `src/services/cache-storage-service.ts:162-166` says a stale writer computes another
  key and can never address the same bytes. Two commits with the same expected
  generation, content hash and encoding compute the same key, and the loser's cleanup can
  delete the winner's object. `CacheTwins.RowsKeptExactly` says when: a collection of
  commits can lose a ready row's object if and only if two of them share a key, one of
  them able to win and the other with a valid policy. Even then a read never returns
  anything but what was committed.
* In the same function the policy is validated and the database consulted after the
  object was written; a rejected policy or a database error leaves the object without
  cleanup. Such commits, abandoned ones and failed cleanups are the only makers of orphans
  (`CachePresence.OrphansExplained`).
* The read has an `encoding_mismatch` failure (`src/services/cache-storage-service.ts:330-332`)
  that it never reports: the key check before it finds every mismatch first and reports
  malformed metadata (`CacheAnswers.MetadataAnswers`).
* `src/repositories/postgres/api-key-repository.ts:277-288` says a second rotation fails
  with `already_rotated`. It fails with `already_revoked`
  (`ApiKeyAuditTrail.SucceededKeyIsAlreadyRevoked`), and `already_rotated` is never produced
  (`ApiKeyLineage.NeverAlreadyRotated`).
* A revocation writes back the metadata it read. If the key was rotated in between, the
  forward link of the rotation is erased (`ApiKeyAuditTrail.StaleRevokeErasesLink`), and
  links are lost in no other way (`ApiKeyAuditTrail.LinkSurvivesExactly`).
* The audit cursor keeps milliseconds of a column that holds microseconds, so a listing
  can skip rows of one millisecond: `AuditWalk.MicrosecondsAreLost` shows two such rows, and
  `AuditWalk.ListsAllExactly` says exactly when.
* `src/lib/sitemap-parser.ts:75-79` says parsing aborts at the URL limit. The machine reads on,
  ignores further entries and reports truncation.
* The fixed-window limiter calls its window sliding; up to `2 * maxAttempts - 1` attempts
  fit into one span of its length (`RateLimiter.FixedWindowBound`, `BoundAttained`), and when the limit holds
  as it would for a sliding window is `RateLimiter.KeepsToLimitExactly`.
* A successful sitemap fetch leaves the error code of an earlier failure in its row
  (`SitemapRows.SuccessKeepsTheErrorCode`, and exactly when in
  `SitemapRows.NoErrorCodeExactly`).

## Model

| member | source | states |
|---|---|---|
| CacheProtocol.Invariant | src/services/cache-storage-service.ts:145-257 | In every state reached by interleaved puts, swaps, cleanups, marks, invalidations and failures: stored objects are what some commit put under that key, every row meets the table's checks, its generation counts its updates, and a ready row holds the storage key, content, response status, times and freshness window of its last winning commit |
| CacheProtocol.StepKeeps | src/services/cache-storage-service.ts:145-279 | Each single step, from any state that has the invariant, keeps it |
| CacheSafety.GenerationsCountUpdates | src/repositories/postgres/cache-repository.ts:172-228 | A row's generation is one plus the number of updates applied to it, and each applied commit sits in the history at the generation it expected |
| CacheSafety.SwapAppliedOnce | src/repositories/postgres/cache-repository.ts:172-195 | Of all commits that expected one generation of one row, at most one swap was applied |
| CacheSafety.LogOnlyGrows | src/repositories/postgres/cache-repository.ts:172-228 | No step rewrites the update history of a row |
| CacheSafety.SwapRejectedExactly | src/db/schema.ts:539-589 | In a reachable state the database rejects a swap if and only if its policy is valid and either its expected generation does not fit the column, or it matches its row and the response status is out of 100..599 or the row is at the column's end; no other CHECK constraint can fire |
| CacheSafety.MarksEndExactly | src/repositories/postgres/cache-repository.ts:116-228 | In every reachable state: a failure mark is applied if and only if its row is at the expected generation, below the column's end, and does nothing if it is not; an invalidation is applied to any row below the column's end; creating a row that exists returns it unchanged |
| CacheHistory.RowsSayTheirHistory | src/repositories/postgres/cache-repository.ts:116-228 | In every reachable state every column of every row is read off the updates applied to it: the status is that of the last one, the generation counts them, the content is that of the last commit applied, its window 1000 times the policy's seconds (300 and 3600 if none was given, else within 10 to 2592000 and 0 to 2592000), the error code that of the last failure mark since, the invalidation time that of the last invalidation |
| CacheAnswers.PrepareAnswers | src/services/cache-storage-service.ts:145-176 | What a commit refuses before its first effect, in which order, and the key, hash, encoding, body and row it goes on with otherwise |
| CacheAnswers.SwapEndsExactly | src/services/cache-storage-service.ts:211-244 | In every reachable state the swap of a commit is rejected for its policy, won, lost or refused by the database, each under its exact condition in numbers |
| CacheAnswers.MetadataAnswers | src/services/cache-storage-service.ts:301-332 | A read goes on to the object if and only if the row is ready and its key is that of its own hash, generation, content hash and encoding; else it answers not ready or malformed metadata, and never an encoding mismatch |
| CacheAnswers.ReadAnswers | src/services/cache-storage-service.ts:334-374 | On a ready, consistent row a read answers each of a store error, a missing, oversized, unopenable or altered object with its own reason, and serves only HTML with the row's hash |
| CacheSafety.ReadReturnsTheCommit | src/services/cache-storage-service.ts:296-391 | Whatever the store answers, a successful read returns the bytes of the commit that wrote the row looked up, committed for the reader's own identity, or exhibits a hash collision |
| CacheSafety.ReadFailsOnlyByMissingObject | src/services/cache-storage-service.ts:308-374 | A read of a reachable ready row, its object fetched any number of steps later, succeeds with matching hash if the object is there and reports it missing if not; every other integrity failure is unreachable |
| CacheSafety.ReadyMetadataIsSound | src/services/cache-storage-service.ts:306-332 | The metadata checks of a read pass on every reachable ready row |
| CachePresence.TwinsExactly | src/services/cache-storage-service.ts:162-176 | Two commits address one object exactly when they agree on tenant path, key hash, expected generation, content hash and encoding |
| CachePresence.DifferentCommitsAreNoTwins | src/services/cache-storage-service.ts:162-176 | Commits that differ in identity, expected generation, HTML or encoding address different objects, or exhibit a collision |
| CachePresence.PresentThroughout | src/services/cache-storage-service.ts:178-244 | If no commit that can win shares its key with another that has a valid policy, everyone who has won, or is about to swap and can win, finds its object stored, in every reachable state |
| CachePresence.ReadyRowsStayReadable | src/services/cache-storage-service.ts:145-391 | Under that condition a ready row names a stored object and a read of it succeeds with the committed bytes, even if any steps run between lookup and fetch |
| CachePresence.OrphansExplained | src/services/cache-storage-service.ts:178-244 | In every reachable state, a stored object named by no applied commit and addressed by none at work is what a commit left behind whose swap threw, that was abandoned, or whose cleanup failed |
| CachePresence.StoredExactly | src/services/cache-storage-service.ts:120-143 | Among commits with keys of their own, the object of one that was not abandoned is stored exactly from its put to its successful cleanup |
| CacheTwins.RowsKeptExactly | src/services/cache-storage-service.ts:145-257 | For any collection of commits, every ready row keeps its object over every run of them if and only if no two share a storage key, one with a valid policy, a status in 100..599 and a generation in range, the other with a valid policy |
| CacheTwins.TwinsLoseTheObject | src/services/cache-storage-service.ts:226-244 | Any two such commits have a run, with no other commit, after which the row of the first is ready, its object is gone and every read of it fails |
| CacheStorageService.Service.CommitRenderedHtml | src/services/cache-storage-service.ts:145-257 | The uninterleaved commit: which errors leave which state, and that cleanup happens exactly when the swap was lost |
| CacheStorageKey.PatternIsExact | src/lib/cache-storage-key.ts:107-116 | The matcher accepts a text, with given parts, exactly when those parts are well formed and print as that text |
| CacheStorageKey.ParseAfterBuild | src/lib/cache-storage-key.ts:94-142 | Parsing a built key returns the fields it was built from, for all safe-integer generations |
| CacheStorageKey.BuildInjective | src/lib/cache-storage-key.ts:94-105 | Two parameter sets build the same key exactly when they agree on every field, a missing encoding counting as identity |
| CacheStorageKey.BuildAfterParse | src/lib/cache-storage-key.ts:116-142 | Rebuilding a parsed key gives the same text exactly when its generation has no leading zero |
| CacheStorageKey.KeyReads | src/lib/cache-storage-key.ts:43-105 | Which parameters have a key, character by character, and the text of that key |
| CacheStorageKey.ParseExactly | src/lib/cache-storage-key.ts:107-142 | A text parses to the parts of the well-shaped key it renders, and fails for a foreign prefix, generation zero, a generation beyond the safe integers, or any other text |
| CacheStorageKey.KeysNeverTraverse | src/db/schema.ts:585-588 | No well-formed key contains "..", so the traversal check never rejects one |
| CacheIdentity.JoinedInjective | src/lib/cache-identity.ts:37-67 | On NUL-free fields the joined text determines the identity, and conversely |
| CacheIdentity.DistinctIdentitiesDistinctRows | src/lib/cache-identity.ts:52-67 | Two different NUL-free identities share a cache row only if SHA-256 collides on them |
| CacheIdentity.DistinctIdentitiesDistinctObjects | src/lib/cache-storage-key.ts:94-105 | Two different NUL-free identities share a storage key only if SHA-256 collides on them |
| CacheIdentity.JoinedReads | src/lib/cache-identity.ts:52-67 | The hashed text of an identity, with version 1 if none is given |
| CacheIdentity.NulInFieldIsAmbiguous | src/lib/cache-identity.ts:37-67 | The NUL-free hypothesis is needed: with a NUL in a field two identities join to one text |
| SitemapFetch.Crawler.BuildSitemapFetchTree | src/services/sitemap-fetch-service.ts:111-197 | The recursive crawl with its two shared counters terminates for every web and computes the specified tree and counters |
| SitemapFetch.Crawler.CollectChildren | src/services/sitemap-fetch-service.ts:138-164 | The loop over nested sitemaps: the shared cap, skipped entries, and failed children recorded in place |
| SitemapFetch.Crawler.CollectPages | src/services/sitemap-fetch-service.ts:175-194 | The pages listed are the entries whose loc normalizes, in order, each at the position given by the number of such entries before it and with its own attributes, until the shared budget is used up |
| SitemapFetch.BuildReads | src/services/sitemap-fetch-service.ts:72-197 | What a crawl answers from what the fetch and the parser gave it: the code of each failure, by depth; every page of a urlset within the budget, by position; every child of an index, by position, each the tree crawled at its normalized URL from the state the one before left, or a failed leaf with that error's code, until 500 nested sitemaps are counted |
| SitemapFetch.ChildrenExactly | src/services/sitemap-fetch-service.ts:138-164 | The children of an index and the chain of states they are crawled from, by position in the document |
| SitemapFetch.BuildConserves | src/services/sitemap-fetch-service.ts:111-197 | For every web and every starting state: the budget used, the nested count and the fetches of a crawl equal the counts read off its tree, its requests are at most three per fetched node, and a failing call leaves both counters unchanged |
| SitemapFetch.CrawlConserves | src/services/sitemap-fetch-service.ts:111-205 | Budget consumed is countDiscoveredUrls of the tree, the nested count grew by its non-root nodes, and each node within the depth limit was fetched once |
| SitemapFetch.FreshCrawlIsBounded | src/services/sitemap-fetch-service.ts:8-17 | A fresh crawl makes at most 501 fetches and 1503 requests, has at most 501 nodes and finds at most what the domain's table has room for |
| SitemapFetch.TreesAreShaped | src/services/sitemap-fetch-service.ts:118-164 | In every crawl tree nodes one level past the depth limit are failed leaves, failures have no children, no node has both pages and children, and the normalised URL and path recorded for a page are what normalising its raw URL gives |
| SafeHttpClient.SafeFetch | src/lib/safe-http-client.ts:199-235 | The redirect loop computes the specified outcome and sequence of requests |
| SafeHttpClient.FetchIsConfined | src/lib/safe-http-client.ts:183-235 | However the network answers, a fetch sends at most maxRedirects + 1 requests, each to an accepted HTTPS URL on the required host, and returns only an actual final reply |
| SafeHttpClient.FetchFollows | src/lib/safe-http-client.ts:199-235 | A fetch follows every redirect within its budget, resolved against the URL it came from, and reports what stopped it: a refused URL, a transport error, the budget, an unresolvable location, or the final reply |
| SitemapPersistence.Database.PersistSitemapFetch | src/repositories/postgres/sitemap-persistence-repository.ts:194-224 | The tree and its audit row are persisted together and counted once as a success, and the discovered count is reported; or, whichever statement fails, the tables are as before, and a failure is counted if the audit row was reached |
| SitemapPersistence.Database.Persist | src/repositories/postgres/sitemap-persistence-repository.ts:95-147 | The recursive upsert with its loops over pages and children equals its specification |
| SitemapPersistence.PersistAddsTheTree | src/repositories/postgres/sitemap-persistence-repository.ts:95-147 | A domain's discovered URLs become the old set plus the tree's, grow by at most countDiscoveredUrls, and no other domain is touched |
| SitemapPersistence.SerialFetchKeepsTableBound | src/routes/organizations.ts:646-677 | A serial fetch-and-persist leaves at most max(old size, 200000) discovered URLs |
| SitemapRows.SourcesSayTheirVisits | src/repositories/postgres/sitemap-persistence-repository.ts:97-146 | The source rows afterwards are just the old ones and those the tree visits, under their old ids, and every column is determined: the status by the last node of that URL in preorder, the error code by the last failed one, the HTTP status and the page count by the last fetched one, the rest as before or as inserted |
| SitemapRows.NoErrorCodeExactly | src/repositories/postgres/sitemap-persistence-repository.ts:97-134 | A row is left without an error code if and only if it had none before and no node of its URL failed, whatever its status says |
| SitemapRows.SuccessKeepsTheErrorCode | src/repositories/postgres/sitemap-persistence-repository.ts:98-101 | For any error code and pages, a table and a tree after whose persistence the row says success and still carries the error code |
| SitemapRows.RowsSayTheLastListing | src/repositories/postgres/sitemap-persistence-repository.ts:103-128 | Each discovered row carries the attributes of its last listing in preorder, points at the row of the sitemap that made it, and keeps the raw URL it was first seen with |
| SitemapParser.Parser.ParseSitemapXml | src/lib/sitemap-parser.ts:80-181 | The event callbacks and the final checks compute the specified parse, for any event stream |
| SitemapParser.ParsesAnyDocument | src/lib/sitemap-parser.ts:80-181 | Fed any well-formed urlset or sitemapindex, the tokenizer trimming each piece of text, the machine returns the first maxUrls entries with a loc, each field its last non-empty trimmed value, and reports truncation exactly when an entry opens after maxUrls were collected |
| SitemapParser.ReadsEntry | src/lib/sitemap-parser.ts:127-153 | Inside an entry the machine state equals what the tree reading of its content says; outside one it ignores fields |
| SitemapParser.FailsExactly | src/lib/sitemap-parser.ts:92-181 | For any event stream, whether the parse fails and with which reason: a DOCTYPE anywhere wins; then what comes first, a syntax error or an unknown root; then a later syntax error; a stream without a root element fails; any other is a sitemap of its root's kind |
| SitemapParser.TrimExactly | src/lib/sitemap-parser.ts:141 | Trimming cuts white space off both ends and nothing else |
| RenderCapacity.EveryRunKeepsInv | src/services/render-capacity.ts:58-155 | In every reachable state: active and queue bounds, nobody waits while a slot is free, exactly the waiting entries have an armed timer, tasks start in submission order, and every submission is in exactly one of queued, running and settled |
| RenderOutcomes.OutcomesSayTheEvents | src/services/render-capacity.ts:75-155 | Over every run, read off its events: a promise is fulfilled or failed exactly as its task was, timed out exactly when its timer fired, closed exactly when it waited at close() or came after it, and full exactly when it came to busy slots and a full queue |
| RenderOutcomes.SubmissionDecided | src/services/render-capacity.ts:94-143 | A submission to an open controller starts at once exactly if fewer than maxConcurrent run, else waits exactly if fewer than maxQueued wait, else is full; to a closed one it is closed; and nothing else changes |
| RenderCapacity.FreedSlotGoesToOldest | src/services/render-capacity.ts:58-92 | A slot freed while entries wait starts the oldest of them and only it |
| RenderCapacity.OutcomesAreFinal | src/services/render-capacity.ts:82-155 | No step changes the outcome of a settled submission or the order of past starts |
| RenderCapacity.ClosedStartsNothing | src/services/render-capacity.ts:145-155 | After close nothing starts any more |
| RenderCapacity.TryRunNextRestores | src/services/render-capacity.ts:58-66 | The dispatch loop turns any state that is consistent but has a free slot into one where nobody waits for it |
| RenderCapacity.Controller.RunNext | src/services/render-capacity.ts:58-66 | The dispatch loop computes its specification |
| RenderCapacity.Controller.Shut | src/services/render-capacity.ts:145-155 | Close rejects every waiting entry, disarms its timer, and is idempotent |
| RateLimiter.Limiter.Cleanup | src/lib/rate-limiter.ts:51-58 | After the loop exactly the buckets with now - windowStart >= windowMs are gone, and the others are as before |
| RateLimiter.DecidedByHistory | src/lib/rate-limiter.ts:64-80 | Over any run without resets of the key, a check is denied exactly when the key's last window is still open and holds maxAttempts grants; the wait it reports is the rest of that window, rounded up to seconds |
| RateLimiter.ResetForgets | src/lib/rate-limiter.ts:81-83 | After a reset the next check of the key is allowed in a window of its own, whatever happened before, and no other key is touched |
| RateLimiter.FixedWindowBound | src/lib/rate-limiter.ts:64-80 | Over any run without resets of the key, at most 2 * max(1, maxAttempts) - 1 checks are allowed in any half-open span of windowMs |
| RateLimiter.HistoryInv | src/lib/rate-limiter.ts:64-80 | The bucket of a key describes its last window, and grants fall into windows at least windowMs apart with at most maxAttempts each |
| RateLimiter.BoundAttained | src/lib/rate-limiter.ts:64-80 | For every window of at least 2 ms and every positive limit some run reaches that bound |
| RateLimiter.KeepsToLimitExactly | src/lib/rate-limiter.ts:64-80 | For a positive limit, every run keeps every span of windowMs to maxAttempts, as a sliding window would, if and only if maxAttempts is 1 or windowMs is at most 1 |
| RateLimiter.RemainingIsExact | src/lib/rate-limiter.ts:68-79 | `remaining` further checks inside the window are allowed and the next one is denied |
| RateLimiter.CleanupChangesNoDecision | src/lib/rate-limiter.ts:51-61 | Runs that differ only in where cleanup() falls make the same decisions |
| RateLimiter.RetryAfterIsExact | src/lib/rate-limiter.ts:73-76 | With no other call on the key a check retryAfterSeconds after a denial is allowed and one a second earlier is denied |
| VerificationLimiter.GrantsExactly | src/services/domain-verification-service.ts:133-152 | Despite pruning, an attempt at t is granted exactly when fewer than maxPerWindow of all grants ever made to that domain lie in (t - windowMs, t] |
| VerificationLimiter.PrunedLogIsEnough | src/services/domain-verification-service.ts:142-149 | The stored log and the full history have the same live entries at every later moment |
| VerificationLimiter.SlidingWindowBound | src/services/domain-verification-service.ts:133-152 | Any half-open span of windowMs holds at most maxPerWindow grants |
| VerificationLimiter.GrantsSpread | src/services/domain-verification-service.ts:133-152 | Any maxPerWindow + 1 consecutive grants span at least windowMs |
| ApiKeys.Repository.CreateApiKeyForProject | src/repositories/postgres/api-key-repository.ts:181-234 | A new id gets its enabled key together with one audit row and one counted success; or, whichever statement fails, the tables are as before, and a failure is counted only if the audit row was reached |
| ApiKeys.Repository.RotateApiKeyForProject | src/repositories/postgres/api-key-repository.ts:289-394 | A rotation inserts the successor, retires and links the old key, touches no other key and adds one audit row and one counted success; a refusal changes nothing, and a failure nothing but the failure counter if the audit row was reached; each answer has its exact condition on the stored row |
| ApiKeys.Repository.SetEnabledAndMetadataForProject | src/repositories/postgres/api-key-repository.ts:241-275 | The given metadata is written over the current one together with one audit row and one counted success; an unfound key and a failure change nothing |
| ApiKeys.RotationAnswers | src/repositories/postgres/api-key-repository.ts:301-321 | From any tables: not found exactly if no readable key of that organization and project has the id; else already revoked, already rotated, expired or rotated, each exactly under its condition on enabled, revokedAt, the forward link and expiresAt |
| ApiKeys.RevocationAnswers | src/services/api-key-service.ts:160-168 | What a revocation answers from the stored row, and the metadata it goes on to write |
| ApiKeyLineage.DisabledSaysWhen | src/repositories/postgres/api-key-repository.ts:357-366 | In every reachable state a key has a revokedAt exactly when it is disabled |
| ApiKeyLineage.StepKeeps | src/repositories/postgres/api-key-repository.ts:181-394 | Every step of creation, rotation and split revocation, with any fault, keeps the lineage invariant and never removes a key, re-enables one or changes its origin |
| ApiKeyLineage.DisabledForGood | src/services/api-key-service.ts:153-210 | Over every run a disabled key stays disabled, and keys keep their owner and origin |
| ApiKeyLineage.FoundForGood | src/repositories/postgres/api-key-repository.ts:250-251 | A key found once for its organization and project is found after any further steps, so the second lookup of a revocation never misses |
| ApiKeyLineage.NeverAlreadyRotated | src/repositories/postgres/api-key-repository.ts:311-316 | No reachable rotation returns already_rotated |
| ApiKeyLineage.LinksPointBack | src/repositories/postgres/api-key-repository.ts:325-368 | A forward link always names an existing key that points back |
| ApiKeyLineage.LineagesArePaths | src/repositories/postgres/api-key-repository.ts:241-394 | In every reachable state a lineage is an acyclic, unbranching path of one owner with at most one enabled key, its last |
| ApiKeyLineage.OnePerDepth | src/repositories/postgres/api-key-repository.ts:325-331 | A lineage has one key at each depth |
| ApiKeyAuditTrail.AuditsCountKeys | src/repositories/postgres/audit-repository.ts:83-119 | Over every run with faults the success counter of each action equals its committed audit rows; rotated rows equal keys with an origin, created rows equal keys without |
| ApiKeyAuditTrail.EnabledExactly | src/repositories/postgres/api-key-repository.ts:241-275 | A key is enabled exactly when no audit row revokes it and no key succeeds it |
| ApiKeyAuditTrail.FailuresCounted | src/repositories/postgres/audit-repository.ts:92-105 | Over every run the failure counter of each action equals the steps that reached their audit row and did not commit |
| ApiKeyAuditTrail.SucceededKeyIsAlreadyRevoked | src/repositories/postgres/api-key-repository.ts:311-316 | In every reachable state, rotating a key that has a successor is refused as already revoked |
| ApiKeyAuditTrail.LinkSurvivesExactly | src/services/api-key-service.ts:153-172 | The forward link of a rotated key is there exactly when no revocation of it committed after its rotation |
| ApiKeyAuditTrail.StaleRevokeErasesLink | src/services/api-key-service.ts:160-170 | For any key, a run in which a revocation overtaken by a rotation erases the forward link |
| ApiKeyAuditTrail.StepChanges | src/repositories/postgres/api-key-repository.ts:194-393 | Every step does one of four things to the tables: nothing, a creation, a succession or a revocation, each with its one audit row |
| AuditPaging.PageIsExact | src/services/audit-service.ts:100-118 | A page lists eligible rows in order and skips none; a cursor is returned exactly when some eligible row is after the page, and then it is that of its last row |
| AuditPaging.FirstPage | src/services/audit-service.ts:100-118 | A first page lists only rows of the organization with every field asked for, newest first; without a cursor it lists all of them, with one it is full and there are more |
| AuditPaging.PageSize | src/services/audit-service.ts:101 | The page size is the limit asked for, 20 if none is, at least 1 and at most 100 |
| AuditPaging.TokenAnswers | src/services/audit-service.ts:51-69 | A token is refused without a separator, with no or an unreadable date before the first one, or nothing after it; an id that is no uuid fails in the database; any other token lists the page after its cursor |
| AuditPaging.TokenRoundTrip | src/services/audit-service.ts:46-69 | A token decodes to the cursor it was made from, though it is split at the first separator |
| AuditPaging.AllInOrder | src/repositories/postgres/audit-repository.ts:148-170 | The query returns the eligible rows, each once, createdAt descending, then id descending |
| AuditWalk.FollowIsTrail | src/services/audit-service.ts:100-118 | No token handed out is ever rejected, and following tokens is following cursors |
| AuditWalk.ListsNothingTwice | src/services/audit-service.ts:100-118 | With any rows inserted between pages and any timestamps, following nextCursor never meets a rejected token, lists only rows of the organization with every field asked for, createdAt descending and of one instant id descending, so none twice |
| AuditWalk.ListsEverything | src/services/audit-service.ts:100-118 | If no matching row shadows another, a walk to the end lists every matching row there was at the start, whatever was inserted between pages |
| AuditWalk.MissedExactly | src/services/audit-service.ts:111-117 | A finished walk misses exactly the rows shadowed by the end of a page, that is, those in its millisecond that fall between it and its truncated cursor |
| AuditWalk.MillisecondRowsAllListed | src/services/audit-service.ts:46-118 | With timestamps of the cursor's grain, and any rows inserted between pages, a listing followed to its end returns every matching row there was at the start exactly once |
| AuditWalk.ListsAllExactly | src/services/audit-service.ts:100-118 | A table that is not written lists completely at every page size if and only if no matching row shadows another |
| AuditWalk.MicrosecondsAreLost | src/services/audit-service.ts:46-49 | For every filter and millisecond, a table of two matching rows one microsecond apart, of which a listing of one row a page never returns one |

## Left out

- Routes, authentication, cookies, CORS, CSRF, command-line scripts, environment parsing, browser control: plumbing over libraries that are not part of this model.
- Cache-state classification, key-name checks, slugs, robots and hostname helpers: settled by reading one branch.
- The filesystem object store: the memory store's map semantics stand for both.
- SHA-256, gzip (RFC 1952), brotli (RFC 7932), base64url (section 5 of RFC 4648), URL parsing, UTF-8 and JSON: function parameters; HTML is bytes.
- The XML tokenizer: the parser is fed events, and comments, CDATA sections and processing instructions, which the source does not listen to, cause none.
- SitemapParser.ParsesAnyDocument: says nothing of documents that put entries inside entries or fields inside fields, because neither is a sitemap; ParseSitemapXml covers every event stream.
- Sockets, TLS, proxies, timeouts and byte caps of a single request: one reply of an oracle.
- Timestamps that decide nothing (createdAt, updatedAt, lastFetchedAt, lastDiscoveredAt), the type of a sitemap source, and the hash columns of a cache row other than its key hash.
- Numbers that are not integers, and generations past the safe integers in a commit.
- A database commit that is applied although its caller is told it failed, for the audited transactions; for cache commits it is modelled as an abandoned commit.
- SitemapPersistence.SerialFetchKeepsTableBound: is about serial runs, because the count the budget starts from is read before the network phase and concurrent fetches of one domain can each use it.
- Sitemap discovery, the failure-only update of a source, and their audit rows.
- The lengths of the capacity controller's timers, and tasks that throw synchronously or call the controller back.
- The in-flight guard, and the metrics other than the audit counters.
- The standalone createAuditEvent: one insert, counted as a success or a failure, outside any transaction.
- API-key material, hashing, verification, and the library's own deletion of expired keys.
- Deleting an organization, which removes its audit rows while they are being listed.
