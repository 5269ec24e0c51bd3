# Verification of soulservice

This project models the stateful core of soulservice in Dafny and proves what the code relies on.
`dafny verify dfyconfig.toml` checks all of it.

soulservice keeps *souls*: a versioned Self Core, facts, properties, adaptations and memories, encrypted under one
data-encryption key (DEK) per soul, which is itself wrapped by a master key. The model follows that structure.

| files | what they model |
|---|---|
| `Prelude`, `PyText`, `Ordering`, `Merge` | result types, the Python string operations, ORDER BY and LIMIT, merging keyed lists into maps |
| `TokenBucket`, `RateLimit`, `Throttle` | the two-window rate limiter and the login throttle, as classes over mutable buckets |
| `Crypto`, `KeyCache` | associated data, ideal authenticated encryption, the DEK cache with a time to live |
| `Store` | the tables and the `Database` object whose fields the writers update |
| `SelfCore` | Self Core versioning, every writer one transaction |
| `Interleaving`, `Serial` | the same writers statement by statement under READ COMMITTED, and that the two models agree |
| `Facts`, `Properties`, `Adaptations`, `Memories` | the four record kinds: their writers, their readers and their runs |
| `Export`, `Import`, `Records`, `Portability`, `Acceptance`, `RoundTrip` | bundles: export, import, their records field by field, merge, which bundles are accepted, and the round trip |
| `Isolation` | row level security and what a scoped session can see and change |
| `Reachability`, `Traces`, `CachedWriters` | all writers together, as runs of each table's writers, and through the cache |
| `Untrusted`, `Ndjson`, `JsonText`, `Embedding`, `Growth` | the text formats |
| `MemoryFile` | the memories of a bundle as a file, and the round trip through it |

How to read it. A writer is a method on `Database` (or on its own class) whose postcondition gives its reply and the new
state as a function of the old state; runs are sequences of operations, and the theorems quantify over all runs. A
ciphertext is a value that records key, nonce, associated data and plaintext; it opens only under exactly that key and
associated data. Time and tokens are reals. Clock readings, random ids and nonces, the pattern detector, the embedding
service, the printing of numbers, ids and dates, and the order of rows with equal sort keys are parameters or left open.
A theorem holds for every choice that meets its hypotheses: ids print without markup, and in the memory file the numbers
of the exported memories are floats, which print as JSON numbers that read back. An abort restores the tables. Primary keys, UNIQUE and CHECK constraints are tests that fail a statement.

## Findings

Five promises hold only under a condition. The model keeps the code as it is and proves the condition:

- Self Core saves are safe exactly when, for every committing writer, no other writer commits between its version read and
  its archive statement (`Interleaving.SafeIffUndisturbed`). Otherwise a save overwrites content it never saw, and from
  then on no save of that Self Core can succeed (`DisturbedCommitWedges`); `LostUpdateHappens` is such a run.
- Export and import keep the Self Core exactly when there is none or its content is not empty
  (`RoundTrip.SecondExportEqualsFirst`): an empty Self Core is not imported. Importing an empty file makes one
  (`Reachability.EmptyCoreIsReachable`), and it is lost (`EmptyCoreIsLost`).
- A memory file reads back exactly when no string in it holds U+0085, U+2028 or U+2029 (`Ndjson.LinesReadBack`,
  `MemoryFile.FileReadsBack`): `json.dumps` leaves these raw and `splitlines` breaks there, so otherwise the whole file is
  refused.
- The DEK cache and the key table disagree exactly on an unexpired entry of a soul that is not in the table
  (`KeyCache.CacheDiffersOnlyOffTable`); an aborted import of a new soul leaves such an entry
  (`AbortedImportStaysCached`).
- A denied check leaves no trace in later answers of the rate limiter exactly when the limit that decides is not negative
  (`RateLimit.AlwaysInvisibleIff`). With a negative limit every check is denied and the retry value tells when the bucket
  was made (`DeniedIsInvisible` says for which traces); `DeniedShows` is two checks that show it.

## Model

| member | source | states |
|---|---|---|
| `TokenBucket.BucketIsSlidingBound` | src/soulservice/core/ratelimit.py:31-36 | The lazily refilled bucket has a token at time t if and only if, for every earlier accepted time s, the requests since s, this one included, are at most capacity + rate * (t - s). |
| `TokenBucket.RefillTwice` | src/soulservice/core/ratelimit.py:31-36 | Refilling to t1 and then to t2 is refilling to t2, unless the limit is negative and the bucket holds more than it. |
| `TokenBucket.RefilledRepresents` | src/soulservice/core/ratelimit.py:31-36 | A refill keeps a bucket in step with the accepted requests alone, and gives the tokens they leave; for a negative limit if it holds no more than that. |
| `TokenBucket.TakenRepresents` | src/soulservice/core/ratelimit.py:61-62 | Taking a token keeps the bucket in step with the accepted requests, the new one included. |
| `RateLimit.RateLimiter.constructor` | src/soulservice/core/ratelimit.py:21-29 | A missing or zero limit falls back to the setting, which may be zero or negative too; no buckets yet. |
| `RateLimit.RateLimiter.RefillBucket` | src/soulservice/core/ratelimit.py:31-36 | The refill of one stored bucket. |
| `RateLimit.RateLimiter.CreateBuckets` | src/soulservice/core/ratelimit.py:43-46 | A new token gets two full buckets, and no other token's change. |
| `RateLimit.RateLimiter.Check` | src/soulservice/core/ratelimit.py:38-63 | Decision, retry value (none where a zero limit makes the source divide by zero) and the whole new state of both dictionaries, other tokens' buckets untouched. |
| `RateLimit.RateLimiter.Draw` | src/soulservice/core/ratelimit.py:51-63 | A token is taken from both buckets or from neither; the minute bucket is asked first. |
| `RateLimit.TracksAlways` | src/soulservice/core/ratelimit.py:38-63 | In every trace with a clock that does not run backwards, each stored bucket whose limit is not negative stands for its token's accepted requests. |
| `RateLimit.AnswerFromHistory` | src/soulservice/core/ratelimit.py:38-63 | For every limit, negative and zero ones included, decision and retry value are a function of the trace with no stored bucket in it: of the accepted requests, and for a negative limit of when the bucket was made. |
| `RateLimit.Exactness` | src/soulservice/core/ratelimit.py:38-63 | In every trace a check is allowed, with a retry value of zero, if and only if both sliding bounds admit it. |
| `RateLimit.TokensAreIndependent` | src/soulservice/core/ratelimit.py:38-63 | Decision and retry value for a token are those of the trace without the other tokens' checks. |
| `RateLimit.DeniedIsInvisible` | src/soulservice/core/ratelimit.py:54-59 | Deleting a denied check from a trace changes no later decision, and leaves a later answer as it is if and only if both limits are positive, the limit that decides is zero, or the bucket that answers is made at the same reading with and without it. |
| `RateLimit.AlwaysInvisibleIff` | src/soulservice/core/ratelimit.py:31-59 | Denied checks are invisible in every trace if and only if the limit that decides is not negative. |
| `RateLimit.DeniedShows` | src/soulservice/core/ratelimit.py:43-59 | With a negative limit, a token's checks at times 0 and 1: the answer to the second tells whether the first was made. |
| `RateLimit.RetryIsLeastWait` | src/soulservice/core/ratelimit.py:54-59 | Before the returned wait is over, the client is still denied. |
| `RateLimit.RetryIsHonest` | src/soulservice/core/ratelimit.py:54-63 | A client that waits as told is denied at most twice in a row and then allowed. |
| `Throttle.LoginThrottle.Allow` | src/soulservice/web/throttle.py:29-45 | Decision and whole new state of the throttle, other keys untouched. |
| `Throttle.ThrottleIsHourlyLimiter` | src/soulservice/web/throttle.py:29-45 | The throttle decides every attempt as the rate limiter with both windows set to its hourly limit. |
| `Throttle.ThrottleExactness` | src/soulservice/web/throttle.py:29-45 | An attempt is allowed if and only if the hourly sliding bound admits it. |
| `Crypto.AadIsInjective` | src/soulservice/core/crypto.py:17-27 | Associated data of different souls or labels differ, for every label. |
| `Crypto.AadBytes` | src/soulservice/core/crypto.py:17-27 | The associated data byte by byte: the soul's id, a bar and the label of the kind of record. |
| `Crypto.OpensOnlyAtHome` | src/soulservice/core/crypto.py:82-93 | A ciphertext opens for its own soul and label and, under any key, for no other pair. |
| `KeyCache.DekCache.Get` | src/soulservice/core/crypto.py:37-45 | An unexpired entry is returned; an expired one is dropped. |
| `KeyCache.DekCache.Put` | src/soulservice/core/crypto.py:47-48 | The entry is stored with its time, and no other entry changes. |
| `KeyCache.DekCache.Invalidate` | src/soulservice/core/crypto.py:50-51 | The soul's entry is gone, and no other. |
| `KeyCache.DekCache.Clear` | src/soulservice/core/crypto.py:53-54 | No entry is left. |
| `KeyCache.EntryLivesForTtl` | src/soulservice/core/crypto.py:37-45 | After any run, a lookup that has to read the table leaves an entry that answers if and only if it is no older than the time to live. |
| `KeyCache.HitKeepsEntry` | src/soulservice/core/crypto.py:37-48 | A lookup that is answered leaves the entry with the time it was stored, so using a key does not make it live longer. |
| `KeyCache.InvalidatedIsGone` | src/soulservice/core/crypto.py:50-54 | After an invalidation of the soul or a clear no lookup of it is answered from the cache. |
| `KeyCache.OnlyCommitAdds` | src/soulservice/core/portability.py:385-393 | A new soul's key is in the table after its transaction commits, and neither before nor after an abort; no other key changes. |
| `KeyCache.GetDek` | src/soulservice/mcp/tools/properties.py:124-138 | The cached lookup and what it leaves in the cache, errors included. |
| `KeyCache.RunIsCoherent` | src/soulservice/core/crypto.py:30-57 | Over every run of lookups, soul creations, imports, commits, aborts and invalidations, a cached key of a soul in the table (or in an open import) is the key the table holds. |
| `KeyCache.CacheRefinesTable` | src/soulservice/mcp/tools/properties.py:124-138 | For every soul in the key table the cached lookup returns what the table holds, whatever the clocks read. |
| `KeyCache.CacheDiffersOnlyOffTable` | src/soulservice/mcp/tools/properties.py:124-138 | Cached and uncached lookup differ if and only if the soul is not in the table and has an unexpired entry. |
| `KeyCache.AbortedImportStaysCached` | src/soulservice/core/portability.py:385-393 | After any run, an import of a new soul that looked up its key and then aborted leaves a lookup that succeeds for the time to live, and only so long, where the table has no key. |
| `SelfCore.ArchiveCurrent` | src/soulservice/web/queries.py:556-566 | The current row is archived under its version, or UNIQUE refuses. |
| `SelfCore.ArchiveAndUpdate` | src/soulservice/web/queries.py:555-580 | Archive and overwrite are one bump of the version, or nothing. |
| `SelfCore.SaveSelfCore` | src/soulservice/web/queries.py:503-589 | The web save: conflict if the expected version is not the stored one, else one bump. |
| `SelfCore.SelfCoreEdit` | src/soulservice/cli/main.py:331-462 | The CLI edit: nothing if the text is unchanged, else one bump. |
| `SelfCore.SelfCoreImport` | src/soulservice/cli/main.py:472-563 | The CLI import: one bump. |
| `SelfCore.InsertHistory` | src/soulservice/core/portability.py:448-468 | The bundle's history goes in whole if and only if no version repeats or is taken. |
| `SelfCore.ImportCore` | src/soulservice/core/portability.py:410-496 | The Self Core part of an import, with its start version, or no change. |
| `SelfCore.RunKeepsInv` | src/soulservice/core/portability.py:427-430 | After every run of the four writers archived versions lie strictly below the current one, and no row means no history. |
| `SelfCore.UniqueFiresOnlyOnRepeatedVersions` | alembic/versions/0001_initial_schema.py:88-89 | After every run, UNIQUE refuses a write if and only if it imports a bundle with a repeated version for a soul without a Self Core. |
| `SelfCore.SaveIsAcceptedIff` | src/soulservice/cli/main.py:400-402 | After every run, and in terms of the row alone: a web save is accepted if and only if the version it sends is the current one, an edit if and only if the text differs from the current one (from the template where there is none), a CLI import always, a bundle import if and only if it has content and repeats no version it inserts. An accepted save puts the given text in the row, one version up, and archives what was there; a new row starts at version 1, from a bundle above every version it brings. A refused one changes nothing. |
| `SelfCore.ArchivedForever` | alembic/versions/0001_initial_schema.py:78-90 | Archived rows never change and are never removed. |
| `SelfCore.HistoryIsChronicle` | src/soulservice/web/queries.py:503-589 | After every run the current row and the history are exactly the successful saves, numbered from the first. |
| `SelfCore.NeverImportedStartsAtOne` | src/soulservice/web/queries.py:503-589 | A soul that was never imported has exactly the versions 1 to current - 1 archived. |
| `SelfCore.LoadSelfCore` | src/soulservice/web/queries.py:481-500 | What the editor page shows, and the version it will send back. |
| `SelfCore.PageShowsLastSave` | src/soulservice/web/queries.py:481-500 | After every run the editor page shows the text of the last accepted save and sends back its version. |
| `SelfCore.PageBeforeFirstSave` | src/soulservice/web/queries.py:490-492 | Before the first accepted save it shows the template and version 0. |
| `SelfCore.VersionTellsSaves` | src/soulservice/web/queries.py:523-554 | Over every run the version rises with every successful save, and with equal versions the row is the same. |
| `SelfCore.WebSaveSeesEveryChange` | src/soulservice/web/queries.py:523-589 | A web save is accepted if and only if no save of that soul succeeded since the page was loaded; it then overwrites the very row that was loaded. |
| `Interleaving.AlwaysHolds` | src/soulservice/web/queries.py:523-580 | In every interleaving at most one writer holds an uncommitted archive row, and that row copies the committed current row. |
| `Interleaving.SameVersionCommitsOnce` | alembic/versions/0001_initial_schema.py:89 | Two writers that archive the same version cannot both commit. |
| `Interleaving.SafeIffUndisturbed` | src/soulservice/web/queries.py:523-580 | The version invariant holds throughout an interleaving if and only if no commit fell between the version read and the archive statement of any committing writer. |
| `Interleaving.NoUnseenOverwrite` | src/soulservice/web/queries.py:523-580 | In such an interleaving a commit replaces the row its writer read. |
| `Interleaving.VersionTellsRow` | src/soulservice/web/queries.py:523-580 | In a safe interleaving versions only rise, and equal versions mean equal rows. |
| `Interleaving.PageRowIsReplaced` | src/soulservice/web/queries.py:481-580 | In a safe interleaving a web save that commits replaces the very row its page was loaded from. |
| `Interleaving.DisturbedCommitWedges` | src/soulservice/web/queries.py:555-580 | The first disturbed commit overwrites a row its writer never saw, and afterwards neither the row nor the history ever changes again. |
| `Interleaving.LostUpdateHappens` | src/soulservice/cli/main.py:404-461 | An interleaving of two editors in which one save is discarded unseen and the current version is also archived. |
| `Serial.SaveIsBump` | src/soulservice/web/queries.py:555-580 | Statements that run with no other writer's between them commit what the one-transaction model says. |
| `Serial.RefusedSaveAborts` | alembic/versions/0001_initial_schema.py:89 | And they abort, changing nothing, where that model refuses. |
| `Serial.CreateIsBump` | src/soulservice/web/queries.py:537-553 | The same for the first save. |
| `Facts.UpsertFact` | src/soulservice/mcp/tools/facts.py:83-107 | The upsert: a row keeps its id, a new id must be free, the CHECK constraint holds. |
| `Facts.LearnFact` | src/soulservice/mcp/tools/facts.py:57-109 | The tool's learn, with every refusal and the whole new table. |
| `Facts.SetFact` | src/soulservice/web/queries.py:341-381 | The web form's set; the CLI's is the same. |
| `Facts.ForgetFact` | src/soulservice/mcp/tools/facts.py:170-203 | Forgetting by the id of the active row, for the tool, the web page and the CLI. |
| `Facts.RemoveFact` | src/soulservice/cli/main.py:1638-1657 | Select the active row's id, update by that id. |
| `Facts.MarkDeletedTouchesOne` | src/soulservice/mcp/tools/facts.py:195-201 | The update by id touches one row. |
| `Facts.ApplyKeepsOk` | alembic/versions/0001_initial_schema.py:128-142 | Every write keeps ids unique and every row sealed for its soul under its key. |
| `Facts.LearnRefusedIff` | src/soulservice/mcp/tools/facts.py:57-81 | A learn or set is refused, and then changes nothing, for exactly these reasons and in this order: a malformed name, from the tool a value over 4096 characters or a confidence outside 0 to 1, a missing or unreadable key, a new row whose id is in use. |
| `Facts.ApplyRefines` | src/soulservice/mcp/tools/facts.py:57-203 | Each write, seen through the soul's key, is a put or a removal in a plain map; other souls' maps do not change. |
| `Facts.TableRefinesMap` | src/soulservice/mcp/tools/facts.py:57-203 | After every run of tool, web and CLI writes the encrypted table is the plain map, for every soul. |
| `Facts.ForgetRefusedIffAbsent` | src/soulservice/mcp/tools/facts.py:170-193 | Forgetting is refused if and only if the plain map does not hold the name, or the tool is given a malformed one. |
| `Facts.RowKeepsItsId` | src/soulservice/mcp/tools/facts.py:90-96 | Rows are never removed and keep their id over every run, so relearning revives the forgotten row. |
| `Facts.GetFacts` | src/soulservice/mcp/tools/facts.py:112-167 | The text of each live fact of the wanted category once, in order of category and key, under its header and wrapped; or that there is none. |
| `Facts.ListingIsDetermined` | src/soulservice/mcp/tools/facts.py:139 | A map has one such listing. |
| `Facts.TextHoldsLiveFacts` | src/soulservice/mcp/tools/facts.py:145-167 | After any run, scanning that text finds exactly the wanted facts of the plain map, in order, each with its id and under it its header and value; a value without a closing tag is found as it is, any other escaped. |
| `Properties.SetProperty` | src/soulservice/mcp/tools/properties.py:141-195 | The upsert of a typed property, with every refusal and the whole new table. |
| `Properties.DeleteProperty` | src/soulservice/mcp/tools/properties.py:239-268 | Soft deletion of an active property. |
| `Properties.GetProperties` | src/soulservice/mcp/tools/properties.py:198-236 | The text of each active property of the wanted type once, in order of type, under its header and wrapped; or that there is none; the key is fetched only for a sensitive one. |
| `Properties.RegistryIs` | src/soulservice/mcp/tools/properties.py:25-50 | The registered types, the keys each allows, and that boundaries alone are sensitive. |
| `Properties.PropertyTypeIs` | src/soulservice/mcp/tools/properties.py:26 | A property type is a lower-case letter and up to 49 letters, digits and underscores, perhaps with a line feed after it. |
| `Properties.SetRefusedIff` | src/soulservice/mcp/tools/properties.py:141-195 | A set is refused, and then changes nothing, for exactly these reasons and in this order: a malformed or unregistered type, a value that is no object, a key its type does not allow, more than 8192 characters, and for boundaries an unreadable key, for the other types a missing soul. |
| `Properties.OnlyBoundariesAreSealed` | src/soulservice/mcp/tools/properties.py:84-104 | An accepted set of boundaries stores the placeholder and the value under the soul's key; of any other type it stores the value in the open. |
| `Properties.DeleteRefusedIffAbsent` | src/soulservice/mcp/tools/properties.py:239-268 | A delete is refused if and only if the type is malformed or the soul has no such active property. |
| `Properties.WrittenIsOk` | src/soulservice/mcp/tools/properties.py:159-193 | What is written is registered, valid for its schema, holds the given value, and is encrypted exactly when its type is sensitive. |
| `Properties.SerializedReadsBack` | src/soulservice/mcp/tools/properties.py:84-121 | A stored value reads back as the value that was set, encrypted or not. |
| `Properties.SensitiveRowsShowNothing` | src/soulservice/mcp/tools/properties.py:98-99 | Two sensitive rows of a type differ in nothing but the ciphertext. |
| `Properties.ApplyRefines` | src/soulservice/mcp/tools/properties.py:141-268 | Setting and deleting are plain map operations on the active values; other souls' maps do not change. |
| `Properties.TextHoldsActiveProperties` | src/soulservice/mcp/tools/properties.py:219-236 | Scanning that text finds exactly the selected properties, in order, each under its header; a value that prints without a closing tag is found as it is, any other escaped. |
| `Adaptations.AdaptationAdd` | src/soulservice/cli/main.py:929-980 | The add, with its refusals and the whole new table: one row more, active, with the given category, content, confidence and source. |
| `Adaptations.AdaptationSupersede` | src/soulservice/cli/main.py:1046-1103 | The supersede: a new row of the same soul and category, and the old one pointing to it. |
| `Adaptations.AddedIff` | src/soulservice/cli/main.py:929-980 | An add is accepted if and only if its category is one of the five, its soul has a key and its id is new; a refused one changes nothing. |
| `Adaptations.SupersededIff` | src/soulservice/cli/main.py:1051-1101 | A supersede is accepted if and only if the old row is there and active, its soul has a key and the new id is new; a refused one changes nothing. |
| `Adaptations.SupersedeSays` | src/soulservice/cli/main.py:1051-1101 | A supersede appends the new content for the old row's soul and category, keeps its confidence unless a new one is given, and marks that row alone. |
| `Adaptations.RunKeepsLineages` | src/soulservice/cli/main.py:1095-1101 | Over every run pointers lead to later rows of the same soul and category, no two rows point to the same one, and a row with a pointer is superseded. |
| `Adaptations.Tip` | alembic/versions/0001_initial_schema.py:175 | Following the pointers terminates, in a row of the same soul and category. |
| `Adaptations.EveryLineageEndsActive` | src/soulservice/cli/main.py:1046-1103 | The row a lineage ends in is active if and only if the row started from did not come inactive with an import. |
| `Adaptations.ActiveEqualsAdded` | src/soulservice/cli/main.py:929-1103 | Over every run, for every soul and category, the active rows are as many as the successful adds and the imports of active rows. |
| `Memories.RememberThis` | src/soulservice/mcp/tools/memory.py:66-122 | Storing a memory, with every refusal and the whole new table: one row more with its content, tags, detected flags and embedding, pending exactly when a pattern is detected. |
| `Memories.RememberedIff` | src/soulservice/mcp/tools/memory.py:66-122 | Storing is accepted if and only if the content has at most 8192 characters, there are at most 20 well-formed tags, the soul has a key, the vector has 1024 entries and the id is new; a refused one changes nothing. |
| `Memories.DecideProposal` | src/soulservice/mcp/tools/review.py:83-115 | Confirming or rejecting a pending memory, in a tool's scope or by the CLI. |
| `Memories.DecisionIs` | src/soulservice/mcp/tools/review.py:83-115 | For a memory in scope a decision is accepted if and only if it is one of the two and the memory is pending; then confirming makes that memory confirmed, rejecting makes it rejected, and no other row changes. |
| `Memories.ForgetMemory` | src/soulservice/web/queries.py:286-300 | Forgetting a confirmed or pending memory, in the web page's scope or by the CLI. |
| `Memories.ForgettingIs` | src/soulservice/cli/main.py:1371-1389 | For a memory in scope forgetting is accepted if and only if it is confirmed or pending; then that memory is forgotten, and no other row changes. |
| `Memories.NobodyIsDecided` | src/soulservice/mcp/tools/review.py:91-103 | A memory that is not there, or not in scope, can be neither decided nor forgotten. |
| `Memories.Recall` | src/soulservice/mcp/tools/memory.py:125-187 | The text of the k nearest confirmed memories of the soul, each under its header and wrapped, and the recall counts after; or that there is none. |
| `Memories.RecallRecent` | src/soulservice/mcp/tools/memory.py:190-234 | The text of the most recent confirmed memories since the cutoff, each under its header and wrapped; or that there is none. |
| `Memories.Overview` | src/soulservice/mcp/tools/identity.py:99-162 | The introduction with the number of confirmed memories, then the text of the eight most recent; or the placeholder when there is none; in messenger mode after a line with the soul's name. |
| `Memories.RecallTakesClosest` | src/soulservice/mcp/tools/memory.py:141-149 | A recall selects at most k confirmed memories of the soul, all of them if there is room, none twice, the closest first and none farther than one left out. |
| `Memories.RecentTakesLatest` | src/soulservice/mcp/tools/memory.py:204-212 | The other readers select in this way by date, the latest first. |
| `Memories.RecallCountsShown` | src/soulservice/mcp/tools/memory.py:177-185 | A recall adds one to the count of each memory it shows and sets its time, and changes nothing else of it and no other row. |
| `Memories.StatusOnlyMovesForward` | src/soulservice/mcp/tools/review.py:105-113 | Over every run a memory keeps its content, and its status moves only from pending to confirmed, rejected or forgotten, or from confirmed to forgotten. |
| `Memories.FlaggedWasDecided` | src/soulservice/mcp/tools/memory.py:85-115 | A flagged memory that was not imported is confirmed only if a decision after it was stored confirmed it. |
| `Memories.ConfirmedIsShown` | src/soulservice/mcp/tools/review.py:105-113 | After any run a memory that an accepted decision confirmed, and that was not forgotten since, is among those its soul's readers select from. |
| `Memories.ShownWasReviewed` | src/soulservice/mcp/tools/memory.py:141-149 | Whatever a reader shows was never rejected or forgotten, and if flagged and not imported was confirmed by a decision. |
| `Memories.TextHoldsReviewed` | src/soulservice/mcp/tools/memory.py:161-187 | After any run, scanning a reader's text finds exactly the memories it selected, in order, each with its id and under it date, salience and content, a content without a closing tag as it is and any other escaped; each is confirmed and, if flagged and not imported, was confirmed by a decision. |
| `Memories.OverviewScans` | src/soulservice/mcp/tools/identity.py:152-167 | Scanning an overview finds exactly the memories it selected, in order, provided the soul's name holds no angle bracket. |
| `Export.ExportSoul` | src/soulservice/core/portability.py:111-325 | The export of a soul: every row, decrypted, in the order of the queries; it fails only without a key. |
| `Export.ExportHistory` | src/soulservice/core/portability.py:166-187 | The archived versions in ascending order. |
| `Export.ExportFacts` | src/soulservice/core/portability.py:189-214 | The facts by category and key, forgotten ones too on request. |
| `Export.ExportProperties` | src/soulservice/core/portability.py:216-240 | The active properties by type, decrypted. |
| `Export.ExportAdaptations` | src/soulservice/core/portability.py:242-267 | The adaptations, each once, by time. |
| `Export.ExportMemories` | src/soulservice/core/portability.py:269-301 | The memories, each once, by time. |
| `Export.FactsExportIsUnique` | src/soulservice/core/portability.py:195 | Facts can be exported in one way. |
| `Records.ExportShowsCore` | src/soulservice/core/portability.py:145-187 | The exported Self Core, field by field: the current text and version, and every archived version once, in ascending order, with its text and note. |
| `Records.ExportShowsFacts` | src/soulservice/core/portability.py:189-214 | The exported facts, field by field: every fact that was asked for, once, by category and key, with its value in the clear. |
| `Records.ExportShowsProperties` | src/soulservice/core/portability.py:216-240 | The exported properties, field by field: every active one, once, by type, a sensitive one in the clear. |
| `Records.ExportShowsAdaptations` | src/soulservice/core/portability.py:242-267 | The exported adaptations, field by field: each row that was asked for has one record, by time. |
| `Records.ExportShowsMemories` | src/soulservice/core/portability.py:269-301 | The exported memories, field by field: each row that was asked for has one record, by time. |
| `Import.ImportFacts` | src/soulservice/core/portability.py:520-536 | The loop over the bundle's facts, in either conflict mode. |
| `Import.FactsImportIsMerge` | src/soulservice/core/portability.py:498-536 | On plain contents, importing facts is the merge of the list into the map. |
| `Import.ImportProperties` | src/soulservice/core/portability.py:538-560 | The loop over the bundle's properties, and both counters. |
| `Import.PropertiesImportIsMerge` | src/soulservice/core/portability.py:538-560 | On plain contents, importing properties is the merge of the acceptable ones into the active ones. |
| `Import.PropertiesAreCounted` | src/soulservice/core/portability.py:541-560 | Stored and skipped properties add up to the bundle's. |
| `Records.ImportCountsProperties` | src/soulservice/core/portability.py:541-560 | With overwrite an import counts every acceptable property of the bundle as stored; with skip as many as the soul gains active ones. |
| `Import.ImportAdaptations` | src/soulservice/core/portability.py:562-584 | The loop over the bundle's adaptations. |
| `Import.AdaptationsImportAppends` | src/soulservice/core/portability.py:562-584 | The soul gains exactly the bundle's adaptations, in order, and no earlier row changes. |
| `Records.ImportStoresAdaptations` | src/soulservice/core/portability.py:562-584 | After an import there is one row more for each adaptation of the bundle, in its order, with its fields, confidence 0.5 and active where missing. |
| `Import.ImportMemories` | src/soulservice/core/portability.py:586-619 | The loop over the bundle's memories, with the choice of the vector. |
| `Import.MemoriesImportAppends` | src/soulservice/core/portability.py:586-619 | The soul gains exactly the bundle's memories, in order, and no earlier row changes. |
| `Records.ImportStoresMemories` | src/soulservice/core/portability.py:586-619 | After an import there is one row more for each memory of the bundle, in its order, with its fields, salience 0.5 and confirmed where missing, and its vector unless that has not 1024 entries or is to be computed. |
| `Portability.ImportSoul` | src/soulservice/core/portability.py:328-621 | The whole import: all of it with its statistics, or an error and the tables as they were; a new soul needs its user and a free slug. |
| `Portability.MergeEffect` | src/soulservice/core/portability.py:498-621 | After an import facts and properties are merged, adaptations and memories appended, and everything is counted. |
| `Portability.MergedFactAt` | src/soulservice/core/portability.py:498-536 | Name by name: overwrite gives the bundle's last value, skip keeps every existing row, forgotten ones too, and otherwise takes the first; a missing confidence is 1, a missing status active. |
| `Portability.MergedPropertyAt` | src/soulservice/core/portability.py:538-560 | Type by type: the same for acceptable properties, except that skip replaces a row that is not active. |
| `Portability.MergedCore` | src/soulservice/core/portability.py:469-496 | Content merged into an existing Self Core archives it once, one version up; no content changes nothing. |
| `Portability.OthersUntouched` | src/soulservice/core/portability.py:328-621 | Every other soul is left as it was, in every table. |
| `Portability.MergingTwice` | src/soulservice/core/portability.py:498-619 | A second merge of a bundle changes no fact and no active property, and adds its adaptations and memories once more. |
| `Portability.VersionAfterTwo` | src/soulservice/core/portability.py:469-496 | A second merge of a bundle with content is one more version, of one without content none. |
| `Portability.ImportKeepsHealthy` | src/soulservice/core/portability.py:328-621 | After an import every row is still sealed under its own soul's key and the versions are in order. |
| `Acceptance.ImportSucceedsIff` | src/soulservice/core/portability.py:328-621 | With fresh row ids an import succeeds if and only if its format is version 1 with a source and a Self Core and a known mode, its target is there (a soul with a readable key, or an existing user with a free slug and an unused id), every status and category is allowed, and no version repeats in a history to be inserted. |
| `Acceptance.ImportGoesToTarget` | src/soulservice/core/portability.py:347-398 | An import into a soul goes to that soul and changes no key; one of a new soul goes to the new id, and adds its key alone. |
| `Acceptance.ImportRefusals` | src/soulservice/core/portability.py:341-398 | Which error a request without a proper format or target gets. |
| `Acceptance.FreshDrawsExist` | alembic/versions/0001_initial_schema.py:111 | Fresh ids can be drawn whatever the tables hold. |
| `RoundTrip.ExportImports` | src/soulservice/core/portability.py:360-621 | Every export imports as a new soul, given fresh row ids and an embedding service of the right dimension. |
| `RoundTrip.CoreRoundTrip` | src/soulservice/core/portability.py:421-468 | The Self Core, version and history come back if and only if there was none or its content is not empty. |
| `RoundTrip.SecondExportEqualsFirst` | src/soulservice/core/portability.py:111-621 | The second export equals the first on facts and properties, on adaptations and memories as multisets but for times and recall counts, and on the Self Core under the condition above. |
| `Reachability.ReachableIsHealthy` | src/soulservice/core/crypto.py:64-93 | In every state the writers can reach, every row is sealed under its own soul's key. |
| `Reachability.ReachableLineages` | src/soulservice/core/portability.py:562-584 | Imports included, adaptation pointers stay lineages. |
| `Traces.CoresAreARun` | src/soulservice/core/portability.py:410-496 | The Self Cores of every reachable database are those of a run of its Self Core operations, imports included, so everything above about such runs holds of it. |
| `Traces.AdaptationsAreARun` | src/soulservice/core/portability.py:562-584 | The same for its adaptations. |
| `Traces.MemoriesAreARun` | src/soulservice/core/portability.py:586-619 | The same for its memories. |
| `Reachability.CiphertextsStayHome` | src/soulservice/core/crypto.py:17-27 | In every reachable state a stored ciphertext opens under its soul's key and label, and under no key for any other soul or label. |
| `Reachability.WrappedKeysStayHome` | src/soulservice/core/crypto.py:17-27 | In every reachable state a soul's wrapped key unwraps under the master key for that soul, and under no key for any other soul or label. |
| `CachedWriters.CachedWritesAgree` | src/soulservice/mcp/tools/properties.py:124-138 | After any run of the cache, every command, imports and soul creations included, leaves the same tables with the cached lookup as with the table, unless the cache holds an unexpired entry of a soul that is not in the table. |
| `CachedWriters.NewIsNotStale` | src/soulservice/core/crypto.py:30-57 | A soul id that was never generated before, as a new soul's is, has no such entry. |
| `CachedWriters.ImportedPropertiesAgree` | src/soulservice/core/portability.py:538-560 | An import that sets each property through the cache as it is by then, whatever other sessions do in between, stores what it would store with the table. |
| `Reachability.TablesArePlain` | src/soulservice/mcp/tools/facts.py:57-203 | After every run of all writers, imports included, the encrypted facts (forgotten ones with their status) and properties of every soul are those of a plain store. |
| `Reachability.ReachableSoulsRoundTrip` | src/soulservice/core/portability.py:111-621 | The round trip holds between any two reachable databases, whatever their master keys. |
| `Reachability.EmptyCoreIsReachable` | src/soulservice/cli/main.py:472-563 | Creating a soul and importing an empty file leaves it with an empty Self Core at version 1. |
| `Reachability.EmptyCoreExports` | src/soulservice/core/portability.py:145-164 | Its export carries the empty content. |
| `Reachability.EmptyCoreIsLost` | src/soulservice/core/portability.py:410-412 | That soul, exported and imported into any healthy database, comes back without a Self Core. |
| `Isolation.ExecuteIsPrivate` | alembic/versions/0001_initial_schema.py:263-274 | A statement under the policy does to the database what it would do to the scope's rows alone. |
| `Isolation.SelectFinds` | alembic/versions/0001_initial_schema.py:263-274 | A select under the policy finds exactly the rows of the scope that meet its condition, as they are, and changes nothing. |
| `Isolation.UpdateRewrites` | alembic/versions/0001_initial_schema.py:263-274 | An update rewrites exactly the rows of the scope that meet its condition, all but their unique key, and is refused if one would leave the scope. |
| `Isolation.InsertAdds` | alembic/versions/0001_initial_schema.py:263-274 | An insert adds its row and no other if it is of the scope and neither its id nor its key is in use, and is refused otherwise. |
| `Isolation.UpsertWrites` | src/soulservice/mcp/tools/facts.py:90-96 | An upsert rewrites the row of its unique key, or inserts where there is none; a row that is or would be of another scope is refused. |
| `Isolation.SessionIsPrivate` | src/soulservice/core/db.py:47-61 | So does every call, one transaction, of every tool, however its statements depend on earlier answers, rollback included. |
| `Isolation.SessionRuns` | src/soulservice/core/db.py:47-61 | A call executes the statements its tool chooses, each on what the earlier ones left, to the end, to an error or to a given number; an error undoes all of them. |
| `Isolation.CallsArePrivate` | src/soulservice/core/db.py:47-61 | So does every sequence of calls, each its own transaction, calls after a failed one and calls chosen from all earlier answers included. |
| `Isolation.CallsRun` | src/soulservice/core/db.py:47-61 | Calls run one after the other, each on what the committed ones left. |
| `Isolation.OtherScopesUnchanged` | src/soulservice/core/db.py:47-61 | No sequence of calls changes, adds or removes a row of another scope. |
| `Isolation.NothingLeaks` | src/soulservice/core/db.py:47-61 | Answers to a sequence of calls, and the resulting rows, are equal for any two databases that agree on the scope. |
| `Isolation.InsertIsPrivateIff` | alembic/versions/0001_initial_schema.py:111 | An insert does as on the scope's rows alone if and only if the policy or a unique key of the scope refuses it, or its id is not in use in another scope. |
| `Isolation.UpsertIsPrivateIff` | src/soulservice/mcp/tools/facts.py:90-96 | An upsert does so if and only if the policy refuses it, the scope has a row of that key, or its id is not in use in another scope. |
| `Isolation.UpdateByIdIsScoped` | src/soulservice/mcp/tools/memory.py:177-185 | An update filtered by row id alone does nothing to another scope's row. |
| `Isolation.RecallCounts` | src/soulservice/mcp/tools/memory.py:141-185 | A recall in a scope shows its confirmed memories and counts the picked ones, each as often as it is picked. |
| `Isolation.RecallIsPrivate` | src/soulservice/mcp/tools/memory.py:141-185 | However often a client recalls in one scope, and whatever it picks, no row of another changes and the answers depend on none. |
| `Untrusted.Render` | src/soulservice/mcp/tools/memory.py:161-187 | The loop that wraps and joins the results. |
| `Untrusted.ReplaceKeepsFree` | src/soulservice/mcp/tools/memory.py:28-35 | A text that does not hold the pattern is left as it is. |
| `Untrusted.ReplaceAtFirst` | src/soulservice/mcp/tools/memory.py:28-35 | Replacing puts the replacement for the first occurrence, keeps what is before it and goes on after it. |
| `Untrusted.WrappedMemory` | src/soulservice/mcp/tools/memory.py:28-35 | The text around a memory, and what stands for a closing tag in one; the same for facts (`WrappedFact`) and properties (`WrappedProperty`). |
| `Untrusted.EscapedIsFree` | src/soulservice/mcp/tools/memory.py:28-35 | For every content the escaped text holds no closing tag, across replacement boundaries too. |
| `Untrusted.ScanRecoversBodies` | src/soulservice/mcp/tools/memory.py:187 | n wrapped results joined by blank lines, after any lines without angle brackets, hold exactly n closing tags, and scanning from one to the next finds the n ids and bodies in order: a content without a closing tag is found as it is, any other escaped. |
| `Untrusted.EscapeIsNotInjective` | src/soulservice/mcp/tools/memory.py:30 | Two contents can have the same escaped body. |
| `Ndjson.StringReadsBack` | src/soulservice/core/portability.py:32-37 | An escaped string literal scans back to the string, for every string. |
| `Ndjson.LetterEscapes` | src/soulservice/core/portability.py:32-37 | The seven characters that are escaped by a letter, as written and as read. |
| `Ndjson.UnHexIs` | src/soulservice/core/portability.py:32-37 | Hexadecimal digits are written in lower case and read in either. |
| `Ndjson.RecordLexes` | src/soulservice/core/portability.py:32-37 | A printed record lexes back to its tokens. |
| `Ndjson.LinesReadBack` | src/soulservice/cli/main.py:229-283 | Reading what was written gives the same records if no string holds U+0085, U+2028 or U+2029, and otherwise fails. |
| `Ndjson.BlankLineIsSkipped` | src/soulservice/cli/main.py:275-283 | A line of whitespace more or less changes nothing of what is read. |
| `Ndjson.LoudRecordFails` | src/soulservice/web/routes/portability.py:109-115 | A record with such a character makes the whole file unreadable. |
| `JsonText.LoadDump` | src/soulservice/core/portability.py:32-37 | Every JSON value, nested to any depth, reads back from its one-line text. |
| `JsonText.LoadTakesOne` | src/soulservice/core/portability.py:32-37 | After a value only whitespace may stand. |
| `JsonText.NumberIs` | src/soulservice/core/portability.py:32-37 | The texts that read as numbers: sign, whole part without leading zeros, fraction, exponent, as in section 6 of RFC 8259. |
| `JsonText.AtomIs` | src/soulservice/core/portability.py:32-37 | What stands for itself in a text is such a number or one of the six words Python reads. |
| `MemoryFile.DecodeEncode` | src/soulservice/core/portability.py:586-617 | What an import takes from the record an export writes is the memory, but for its times and recall count, if its numbers are floats. |
| `MemoryFile.MissingFieldsRead` | src/soulservice/core/portability.py:586-617 | A record with its content alone, and one whose lists, client and vector are null, read as a memory with none of these. |
| `MemoryFile.EncodedTimes` | src/soulservice/core/portability.py:285-299 | An exported record also has the times and the recall count. |
| `MemoryFile.FileReadsBack` | src/soulservice/cli/main.py:229-283 | Exported memories whose numbers are floats read back from their file if no string of theirs holds U+0085, U+2028 or U+2029, and otherwise the file is refused. |
| `MemoryFile.FileRoundTrip` | src/soulservice/core/portability.py:111-621 | The round trip through the file, for memories whose numbers are floats: it reads under that condition alone, and what is read then imports as a new soul whose every export has the rows of the first. |
| `MemoryFile.WholeIsFaithful` | src/soulservice/core/portability.py:32-37 | There are printings as these results ask for: the one whose floats are the whole numbers, in decimal. |
| `Embedding.EmbeddingRoundTrip` | src/soulservice/core/portability.py:98-108 | Every vector, the empty one included, reads back from its printed form. |
| `PyText.SplitJoin` | src/soulservice/core/portability.py:105 | Splitting undoes joining when no part holds the separator. |
| `PyText.StripIs` | src/soulservice/mcp/tools/identity.py:231 | Of a text without whitespace at its ends, with any whitespace around it, stripping leaves that text. |
| `PyText.StripParts` | src/soulservice/mcp/tools/identity.py:231 | Every text is its stripped part, with no whitespace at its ends, between whitespace. |
| `PyText.SplitLinesIs` | src/soulservice/mcp/tools/identity.py:231 | Of lines without breaks, each ended by a line boundary (a carriage return and a line feed together are one), splitting gives those lines. |
| `PyText.SplitLinesParts` | src/soulservice/mcp/tools/identity.py:231 | Every text is its lines, which hold no break, with the boundaries that end them. |
| `PyText.IdentifierIs` | src/soulservice/mcp/tools/facts.py:20 | An identifier is a lower-case letter and up to 49 letters, digits, underscores and hyphens, perhaps with a line feed after it. |
| `Growth.FormatAdaptations` | src/soulservice/mcp/tools/identity.py:211-234 | The growth block, from its nested loops. |
| `Growth.GroupByCategory` | src/soulservice/mcp/tools/identity.py:213-215 | The loop that groups by category in order of first appearance. |
| `Growth.FoldsToIff` | src/soulservice/mcp/tools/identity.py:231 | What a listed item folds to: the lines of its stripped content, all of them in order, with one blank between neighbours. |
| `Growth.PlainItem` | src/soulservice/mcp/tools/identity.py:231 | A content without breaks or outer whitespace is listed as itself. |
| `Growth.LayoutReadsBack` | src/soulservice/mcp/tools/identity.py:217-234 | For any content a reader of the block finds every category under its label with its items in order: a single one stripped, several folded in that way. |
| `Growth.LabelsAreDistinct` | src/soulservice/mcp/tools/identity.py:172-178 | The heading of each stored category, and that a heading tells which it is. |
| `Growth.EveryAdaptationOnce` | src/soulservice/mcp/tools/identity.py:213-215 | Each category has one group, holding exactly its adaptations in order. |
| `Growth.StoredRowsReadBack` | src/soulservice/mcp/tools/identity.py:181-208 | The block of any rows whose categories passed the CHECK reads back so, in whatever order they are loaded. |
| `Reachability.ReachableGrowthReadsBack` | src/soulservice/mcp/tools/identity.py:89-90 | In every reachable state the growth block of a soul's active adaptations reads back so, none missing. |

## Left out

- Floating point: tokens, times, confidence and salience are reals; rounding is not modelled.
- The width of INT columns: versions and recall counts are unbounded.
- Cryptography itself: nonce uniqueness, the strength of AES-GCM, the derivation of keys. Keys and nonces are drawn as parameters.
- The souls, users and tenants tables: a soul exists when its key row does; what a slug names, whether it is free and whether a user exists are parameters.
- JSON in the database and the manifest as text: a property value is its set of keys and its serialised text, the order in which JSONB returns keys is not modelled, and the manifest is a value. Lone surrogates have no character.
- Manifests whose records lack required keys, which raise KeyError in the source, or hold an explicit null for an optional one; missing optional keys and their defaults are modelled.
- Failures of the embedding service: it is a total function here, and its dimension is checked by the column.
- Further lists of the same rows (`list_proposals`, the web pages, `soulctl ... list`): they filter and decrypt as the modelled readers do.
- Columns that no property concerns: `updated_at` (in the listings the day of a row's last change is a parameter), `changed_at`, `key_version`. The tenant column appears only in `Isolation`.
- Collation: ORDER BY on text is by code point.
- Statement level concurrency outside the Self Core: the other writers are modelled as atomic transactions.
- KeyCache.RunIsCoherent: assumes that no soul id is generated twice; one process is modelled against the database.
- Isolation.CallsArePrivate: assumes row ids not in use in another scope, which `InsertIsPrivateIff` and `UpsertIsPrivateIff` show to be needed; the administrator's connection, which bypasses the policies, is not a scoped session.
- Memories.Recall: vector distance is a parameter, and ties are broken by row position.
- Memories.RecallRecent: the cutoff is a parameter.
- Memories.Overview: the soul's display name, which comes from the souls table, is a parameter.
- Export.ExportSoul: the fields of the source block (ids, slug, name, status) and the audit rows an export can include are not modelled; an import reads of them only the slug and the name of a new soul.
- Portability.ImportSoul: writes the key row of a new soul; its row in the souls table is not modelled.
- MemoryFile.FileRoundTrip: the zip archive and its UTF-8 are left out; a record with a field of a type that an export never writes is refused here, where the source fails later or converts it.
- RoundTrip.SecondExportEqualsFirst: compares what this model stores; the change times of archived versions are lost in an import as well.
- Interleaving.SafeIffUndisturbed: one soul; a statement that would block is not enabled until the other transaction ends.
- HTTP, templates, mail, tokens and roles, the audit log, dashboards, the proposals table, the chat client: no code with state that these properties need.
