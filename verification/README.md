# kiwi-catalog in Dafny

kiwi-catalog is a catalogue service for merchant agents and their listings. This project models the parts of it that
keep state under concurrency, expiry and untrusted input, and proves what they promise. Tables are sequences or maps
held by a class, an `order by` is a total order, a transaction or a locked section is one atomic step, and the clock,
the network, random values and digests are parameters. A method follows the branches of the source and is proved
against a function on values; the lemmas then speak about every run of those functions.

| file | component |
|---|---|
| `Order`, `Wrappers`, `JsonValue` | strict orders, sorting and filtering; options and results; JSON trees |
| `ListingModel`, `ListingSearch`, `ListingWalk` | the listing table, one search page, and walks over pages while rows expire |
| `ListingLifecycle`, `ListingRules` | publish, withdraw, reinstate, suspend and expire over the same table, and when they succeed |
| `AgentPagination` | keyset pages of catalogue agents |
| `StateDomains` | three state domains of an agent and the folded status column |
| `CanonicalJson`, `CanonicalJsonReader`, `CanonicalJsonMeaning`, `CanonicalJsonShortest` | the enrollment printer, a reader for it, what the text identifies, and that it is the shortest |
| `CardPublication`, `CardStore` | acceptance of a card publication; revisions, activation, publication state and the stable read |
| `RequestNonce`, `Idempotency`, `Registration` | one-shot ledgers that are pruned |
| `Migrations` | the migration runner and competing processes |
| `BoundedResolver`, `RequestLifecycle`, `BoundedRead` | DNS slots, request sockets and bounded body reads |
| `SecretScan`, `SecretScanExact`, `PublicProjection`, `ProjectionExact`, `ProjectionMembers`, `UcpNormalize`, `UcpNormalizeMeaning`, `ProfileParser` | the secret scan, the UCP adapter, the two public projections and their parsers |

`dafny verify dfyconfig.toml` verifies the project. Nothing here runs the original program.

## Where the code and its promises part

Each of these is proved as an exact condition or with a concrete input.

- The nonce table stores expiries as text with the offset of the issuer and prunes by text order. A request is safe
  from replay if and only if its `issued_at` has no negative UTC offset (`RequestNonce.NeverTwiceIffOffsetNotNegative`).
- The agent cursor predicate re-admits the cursor row when the cursor carries a null timestamp
  (`AgentPagination.AdmitsExactly`, `AgentPagination.NullCursorRepeatsRow`); the column is declared not null.
- A verification reads the code in one transaction and writes its ticket, by email only, in another. A start that
  comes in between does not invalidate it: the account may rest on a code that is no longer that of the latest start,
  exactly in that case (`Registration.AccountRestsOnLatestStartIff`, `Registration.OvertakenCodeStillRegisters`). Purging
  is invisible exactly as long as no verification takes more than a day (`Registration.PurgingIsInvisibleIff`).
- Comments at `kiwi_catalog/services/agent_verification.py:675-676` and
  `kiwi_catalog/services/agent_catalog_writes.py:465-466` say that after an early commit of an idempotency claim the
  clear of a failed request takes effect by itself. The session of a failed request is rolled back, clear and all, so
  the key can be run again if and only if its claim had not been committed (`Idempotency.RetryIffNotCommitted`).
- A state change of a card reports success without looking whether its guarded update found the row. It takes effect
  exactly if the revision it expected is still the active one (`CardStore.StateChangeTakesEffectIff`); every present
  caller holds the write lock by then (`CardStore.LockedStateChangeHolds`).
- A listing withdrawn while under a governance hold can never be ACTIVE again: publish refuses the hold and reinstate
  wants SUSPENDED (`ListingLifecycle.WithdrawnUnderHoldIsFinal`).
- A publish decides about holds from what it reads and does not look again. Within one transaction that is safe
  (`ListingLifecycle.OwnPlanIsSafe`); overtaken, it is exactly under the condition of
  `ListingLifecycle.OvertakenPublishKeepsHoldsIff`.
- Upsert keys are unique because payload validation gives products a reference only and capabilities a key only;
  the lookup itself merges the two columns (`ListingLifecycle.MixedKeysBreakUniqueness`).
- A withdrawn card comes back not only by activation but also by a state change to ACTIVE or PAUSED
  (`CardStore.WithdrawnIsGoneUntilRevived`).
- The comment at `kiwi_catalog/services/agent_catalog_writes.py:286-289` says that the update path does not write the
  administrative state. It does, so the direct write that follows is a no-op
  (`StateDomains.AgentTable.Register`, `StateDomains.RegisteredIsActive`).
- The private update helper folds missing domains as empty text, which agrees with the row exactly if the deciding
  domain is given (`StateDomains.GivenDomainsAgreeIff`); no public writer leaves it out.
- Path texts are ambiguous when a key contains a dot; then a projection may leave out a clean member, never the other
  way round (`ProjectionExact.DottedKeyHidesCleanMember`, `PublicProjection.ProjectIsClean`).
- Policy text promises that rejecting an agent also suspends its listings. The code does so for suspension only, so the
  theorem about ACTIVE listings speaks of suspended owners; search hides those of rejected ones too
  (`ListingLifecycle.BlockingHidesListings`).

## Model

| member | source | states |
|---|---|---|
| ListingModel.ListingTable.ExpireStale | kiwi_catalog/listings/sqlite_repository.py:271-282 | row by row: exactly the rows still FRESH past their fresh_until turn STALE and get the current time as updated_at; no other field and no other row changes |
| ListingSearch.CursorRoundTrip | kiwi_catalog/listings/search.py:58-73 | a cursor the server issues decodes to the sort key of the row it was made from |
| ListingSearch.DecodeExactly | kiwi_catalog/listings/search.py:61-73 | a text is a cursor if and only if it is a rank 0 or 1, a time and a listing id, or a time and a listing id, and decodes to just these |
| ListingSearch.NextCursor | kiwi_catalog/listings/search.py:76-99 | resuming from the cursor of the j-th remaining row leaves exactly the rows behind it: the keyset predicate is "strictly after" in (freshness rank, updated_at desc, id desc) |
| ListingSearch.ScanRows | kiwi_catalog/listings/search.py:305-358 | the batch loop stops only when it has more visible rows than the page takes, when the rows end, or after exactly 500 rows, and has then read a prefix of the remaining rows and kept its visible ones |
| ListingSearch.ScanIsPage | kiwi_catalog/listings/search.py:360-377 | however far the loop read ahead, the page and its cursor are those of "filter, sort, read 500, hide, cut" |
| ListingSearch.ScanPage | kiwi_catalog/listings/search.py:305-377 | the whole scan, also behind a two-part cursor, refines the batch-free description of a page; a malformed cursor is an error |
| ListingSearch.SearchListings | kiwi_catalog/listings/search.py:159-377 | limit check, then expiry, then the page over the expired table; a page holds at most limit listings, each of them ACTIVE without a hold, of the owner and freshness asked for, accepted by the filter, free of share codes, and of an owner neither suspended nor rejected |
| ListingSearch.ResultsArePublic | kiwi_catalog/listings/search.py:195-296 | the same of every page over one snapshot, whatever the filters and the cursor |
| ListingWalk.PageCut | kiwi_catalog/listings/search.py:360-377 | a page hands out the visible rows of a prefix of the remaining rows and resumes right behind it; with a cursor the page is full or has read exactly 500 rows |
| ListingWalk.PageShowsFirst | kiwi_catalog/listings/search.py:300-377 | behind a keyed cursor a page shows the public rows that come first, each of a greater freshness rank or older; one it leaves out comes after all it shows, and then there is a cursor |
| ListingWalk.OlderExactly | kiwi_catalog/listings/search.py:76-97 | older than a cursor is older in time, or of the same time and of a smaller id than the row with the listing id of the cursor; if that row is gone, no row of the same time is |
| ListingWalk.PagePartition | kiwi_catalog/listings/search.py:305-377 | a page either hands a listing out or leaves it behind its cursor, never both and never neither |
| ListingWalk.TwoPartPageLeadsOn | kiwi_catalog/listings/search.py:79-84 | a page behind a two-part cursor hands out the visible part of what it reads and its own cursor has three parts and resumes right behind that |
| ListingWalk.StillWalkIsExact | kiwi_catalog/listings/search.py:305-377 | on an unchanging table a finished walk has handed out exactly the matching visible rows, once each, in order, for any page sizes |
| ListingWalk.QuietWalkIsExact | kiwi_catalog/listings/search.py:192-377 | 2n + 1 requests finish such a walk over n rows, so it terminates |
| ListingWalk.QuietWalkIsPublicList | kiwi_catalog/listings/search.py:192-377 | a quiet walk hands out a listing if and only if it has these properties, FRESH ones first, then the most recently updated, then the greatest id |
| Order.TextBeforeExactly | kiwi_catalog/listings/search.py:76-99 | the order of texts: at the first difference the lesser character decides, and a front comes first |
| ListingWalk.ExpiryStaysAhead | kiwi_catalog/listings/search.py:192-193 | expiry never carries a listing from behind the cursor to before it, although it rewrites two of its sort keys |
| ListingWalk.WalkNeverLosesRow | kiwi_catalog/listings/search.py:192-377 | under arbitrary other writers a finished walk hands out a listing that stays matching and visible at least once and at most twice, twice only if it expired on the way |
| ListingWalk.ExpiringWalkEnds | kiwi_catalog/listings/search.py:192-377 | a walk with an expiry before every page ends within 2n + 1 requests |
| ListingWalk.LazyExpiryNeverLosesRow | kiwi_catalog/listings/search.py:192-377 | with expiry before every page, at any times and page sizes, every matching visible listing is handed out once or twice |
| AgentPagination.AdmitsExactly | kiwi_catalog/agent_catalog/pagination.py:80-112 | the four-way OR equals "strictly after" in the four-key mixed order for all rows if and only if the cursor has a timestamp (or a rank no row has) |
| AgentPagination.RemainingAfter | kiwi_catalog/agent_catalog/pagination.py:80-112 | a cursor made from the j-th row of the list leads to exactly the rows behind it |
| AgentPagination.PageAdvances | kiwi_catalog/agent_catalog/pagination.py:115-135 | one page with its sentinel row: the next limit rows, and a cursor exactly when rows are left |
| AgentPagination.WalkIsWholeList | kiwi_catalog/agent_catalog/catalog_query.py:66-112 | pages of any sizes concatenate to the whole filtered, ordered list with no gap and no repeat |
| AgentPagination.WalkIsSorted | kiwi_catalog/agent_catalog/catalog_query.py:66-112 | such a walk hands out exactly the agents that pass the filters, by status, then the more recently verified, then by name, then by id |
| AgentPagination.StatusRankExactly | kiwi_catalog/agent_catalog/pagination.py:14-42 | the order of the nine statuses, and anything else behind them |
| AgentPagination.NullCursorRepeatsRow | kiwi_catalog/agent_catalog/pagination.py:90-106 | a cursor with a null timestamp leads back to the very row it was made from |
| CanonicalJsonReader.StringRoundTrip | kiwi_catalog/a2a/enrollment_canonical.py:38-43 | the escapes of a string read back as the string; which escapes they are is fixed by CanonicalJsonShortest.StringShortest |
| CanonicalJsonReader.IntRoundTrip | kiwi_catalog/a2a/enrollment_canonical.py:46-50 | a safe integer in front of a non-digit reads back |
| CanonicalJsonReader.RoundTrip | kiwi_catalog/a2a/enrollment_canonical.py:68-99 | parsing the printed text gives the value back, with object keys in sorted order |
| CanonicalJsonMeaning.ByteOrderIsUnitOrder | kiwi_catalog/a2a/enrollment_canonical.py:83-87 | comparing UTF-16BE bytes is comparing UTF-16 code units |
| CanonicalJsonMeaning.KeyOrderIsUnitOrder | kiwi_catalog/a2a/enrollment_canonical.py:83-87 | object keys are sorted by code units, the rule of section 3.2.3 of RFC 8785 |
| CanonicalJsonShortest.KeyOrderOnCodePoints | kiwi_catalog/a2a/enrollment_canonical.py:83-87 | keys are sorted by their first different code point, code points beyond the basic plane going between U+D7FF and U+E000 |
| CanonicalJsonMeaning.UnitOrderIsNotCodePointOrder | kiwi_catalog/a2a/enrollment_canonical.py:83-87 | two keys that this order and the order of code points put differently |
| CanonicalJsonMeaning.PrintAccepts | kiwi_catalog/a2a/enrollment_canonical.py:68-99 | a value can be written if and only if it is free of lone surrogates and unsafe integers and at most 32 levels deep, and it prints if and only if it also comes to at most 1 MiB |
| CanonicalJsonMeaning.PrintBlames | kiwi_catalog/a2a/enrollment_canonical.py:31-99 | a refusal names a fault that is there: too deep, an unsafe integer, a lone surrogate, or, exactly if there is none of these, too large |
| CanonicalJsonMeaning.NormalIffSame | kiwi_catalog/a2a/enrollment_canonical.py:68-91 | sorted forms are equal exactly for values that are equal up to the order of keys |
| CanonicalJsonMeaning.TextIdentifiesValue | kiwi_catalog/a2a/enrollment_canonical.py:94-104 | two values have the same text if and only if they are the same JSON value: injective, and independent of insertion order |
| CanonicalJsonMeaning.ReprintIsSame | kiwi_catalog/a2a/enrollment_canonical.py:94-99 | printing what was parsed gives the same text |
| CanonicalJsonShortest.StringShortest | kiwi_catalog/a2a/enrollment_canonical.py:38-43 | no text reads as a string but is shorter than the printed one, and one of its length only writes hexadecimal digits in upper case |
| CanonicalJsonShortest.EscapeForms | kiwi_catalog/a2a/enrollment_canonical.py:43 | six-character escapes are used only for control characters without one of two, in lower-case digits |
| CanonicalJsonShortest.CanonicalIsShortest | kiwi_catalog/a2a/enrollment_canonical.py:68-99 | of all texts that read as the value with its keys in order the canonical one is the shortest, and the only one of its length up to the case of hexadecimal digits: the bytes that digests are computed over are fixed |
| CanonicalJsonShortest.BytesReadBack | kiwi_catalog/a2a/enrollment_canonical.py:94-99 | the UTF-8 bytes of a code point determine it and say where it ends |
| CanonicalJsonShortest.LengthOfBytes | kiwi_catalog/a2a/enrollment_canonical.py:94-99 | the length that the limit is compared with is the number of those bytes |
| Migrations.UpgradeVersion | kiwi_catalog/db/migrations.py:1682-1686 | after the chain the version is that of the newest migration |
| Migrations.UpgradeTwice | kiwi_catalog/db/migrations.py:1682-1686 | a second run applies nothing |
| Migrations.RunMigrations | kiwi_catalog/db/migrations.py:1649-1707 | succeeds if and only if no command raises and the pending migrations can be applied in order without failing; then each has been applied, in order, to what the one before left, and the version is that of the last; on any failure contents and version are those at entry, an own transaction is closed and a caller's stays open with its earlier writes |
| Migrations.PendingAre | kiwi_catalog/db/migrations.py:1682-1684 | the pending migrations are exactly those newer than the version, in ascending order |
| Migrations.UpgradeLeads | kiwi_catalog/db/migrations.py:1682-1686 | an upgrade is the pending migrations applied one to the outcome of the other, none of them failing, and there is one exactly if they can be |
| Migrations.NextConsistent | kiwi_catalog/db/migrations.py:1669-1701 | every step of every process keeps: only the lock holder is in the chain, working on an upgrade of the committed state |
| Migrations.CommitPutsUpgradeIn | kiwi_catalog/db/migrations.py:1682-1701 | the commit of a process that has run the whole chain makes durable what the pending migrations, applied in order, lead to from the first state |
| Migrations.UpgradeStays | kiwi_catalog/db/migrations.py:1669-1701 | once in, the upgrade stays in, whatever processes run, fail or crash afterwards |
| Migrations.MigrationsTakeEffectOnce | kiwi_catalog/db/migrations.py:1669-1701 | over any interleaving of processes and crashes: if some process commits, every pending migration has taken effect exactly once, in order; if none does, the state is the first one |
| Migrations.LoneProcessUpgrades | kiwi_catalog/db/migrations.py:1649-1707 | an idle process that finds the lock free and is left alone gets the upgrade in, if the pending migrations succeed |
| RequestNonce.CheckPassesExactlyTheGenuine | kiwi_catalog/a2a/request_signature.py:102-181 | the ordered checks pass exactly the requests signed by the newest active unexpired binding, covering the body, within the window, with an acceptable nonce |
| RequestNonce.RefusalKinds | kiwi_catalog/a2a/request_signature.py:102-181 | which refused requests are malformed and which are forbidden |
| RequestNonce.OffsetOrderIsTextOrder | kiwi_catalog/a2a/request_signature.py:205-218 | the order used for offsets is that of their texts, signs, hours and minutes |
| RequestNonce.NonceLedger.Consume | kiwi_catalog/a2a/request_signature.py:184-219 | insert or refuse, then prune on every 64th call; a refusal changes nothing |
| RequestNonce.NonceLedger.Verify | kiwi_catalog/a2a/request_signature.py:102-181 | accepts exactly the genuine requests whose nonce is not on record, with the error of the first failing check otherwise; a refused request leaves no trace |
| RequestNonce.AcceptedAtMostOnce | kiwi_catalog/a2a/request_signature.py:184-219 | over any run with any prune counters, a request issued at or east of UTC is accepted at most once |
| RequestNonce.RowGoesAtOnceIff | kiwi_catalog/a2a/request_signature.py:205-218 | the call that accepts a request deletes its row again if and only if it is a pruning call and the expiry, written with the offset of the issuer, comes before the current UTC text; exactly then the request is accepted a second time |
| RequestNonce.NeverTwiceIffOffsetNotNegative | kiwi_catalog/a2a/request_signature.py:184-219 | a request is safe from replay in every run if and only if its issued_at is not written with a negative UTC offset |
| Idempotency.WriteLedger.ReplayOrNone | kiwi_catalog/api/idempotency.py:162-183 | the stored response for the same request, a conflict for another one or while processing, nothing for an unknown key |
| Idempotency.WriteLedger.Claim | kiwi_catalog/api/idempotency.py:186-211 | inserts a processing row or answers like a replay |
| Idempotency.WriteLedger.MarkCompleted | kiwi_catalog/api/idempotency.py:223-266 | counts, on every 128th completion deletes exactly the rows completed more than seven days ago, then completes the row of the same request |
| Idempotency.WriteLedger.ClearClaim | kiwi_catalog/api/idempotency.py:269-285 | deletes only the processing row of the same request |
| Idempotency.RunsBalanceRemovals | kiwi_catalog/api/idempotency.py:162-285 | under any interleaving of ledger calls the answers "run" for a key balance its removals exactly |
| Idempotency.NoSecondRunWithoutRemoval | kiwi_catalog/api/idempotency.py:186-285 | two answers "run" for a key are separated by a removal of its row |
| Idempotency.RemovalIsClearOrPruning | kiwi_catalog/api/idempotency.py:236-285 | a removal is a clear of a processing row by its own request or the pruning of a row completed more than seven days ago; a processing row is never pruned |
| Idempotency.CompletedKeyReplays | kiwi_catalog/api/idempotency.py:162-183 | once completed, a key replays exactly the stored response to the same request and conflicts for any other |
| Idempotency.ExecuteKeepsInv | kiwi_catalog/api/handlers/agent_catalog.py:719-746 | any order of claims, early commits, completions, second completions and failures keeps: one open transaction that has added just its claim, a row still processing behind every claim committed early, one process for each, and none of these for a key that may be completed twice |
| Idempotency.AlwaysExclusive | kiwi_catalog/api/handlers/agent_catalog.py:605-746 | in every run, with prunings, second completions at any time and failures anywhere, no two processes ever run the same key at once |
| Idempotency.RequestTakesEffect | kiwi_catalog/api/handlers/agent_catalog.py:605-746 | a request for a free key that nothing disturbs is run and completed, with or without an early commit, and its response is replayed from then on |
| Idempotency.EffectsBalancePrunings | kiwi_catalog/api/idempotency.py:162-266 | in every run the work of a key is completed once for each time its row was pruned, and once more exactly while its completed row is there |
| Idempotency.OnlyOldRowsGo | kiwi_catalog/api/idempotency.py:236-250 | in every run a row goes only on a pruning completion and only if it was completed more than seven days before |
| Idempotency.StrandedKeyNeverRunsAgain | kiwi_catalog/api/handlers/agent_catalog.py:727-746 | a committed claim whose process is gone refuses every request for good, whatever else happens |
| Idempotency.RetryIffNotCommitted | kiwi_catalog/db/session.py:124-131 | after an exception or a crash at any point of any run the key can be run again if and only if its claim had not been committed by itself, and then at once |
| Registration.AccountStore.PurgeExpired | kiwi_catalog/services/accounts.py:291-308 | row by row: a row is kept, unchanged, exactly if its ticket expiry, or without one its code expiry, is there and no more than a day past |
| Registration.AccountStore.Start | kiwi_catalog/api/handlers/accounts.py:225-231 | conflict for an email that has an account, purge, upsert and mail as one transaction; a new code replaces code and ticket and lasts a quarter of an hour; a failed mail leaves nothing behind |
| Registration.AccountStore.ReadCode | kiwi_catalog/services/accounts.py:361-373 | the right unexpired code is accepted |
| Registration.AccountStore.WriteTicket | kiwi_catalog/services/accounts.py:374-381 | whatever row the email has becomes a ticket; without a row nothing is written |
| Registration.AccountStore.Verify | kiwi_catalog/services/accounts.py:349-381 | a verification that nothing overtakes: the read and the write one after the other |
| Registration.AccountStore.ConsumeTicket | kiwi_catalog/services/accounts.py:384-407 | compare, check expiry and use up in one delete |
| Registration.AccountStore.Register | kiwi_catalog/services/accounts.py:797-847 | field errors first, then the ticket, then the email; any error gives the ticket back |
| Registration.PurgingIsInvisibleIff | kiwi_catalog/services/accounts.py:291-308 | with a clock that does not run backwards, purging never changes the outcome of any request if and only if no verification takes more than a day between its read and its write |
| Registration.FlightIsReading | kiwi_catalog/services/accounts.py:349-381 | over any interleaving a request has a ticket to write exactly while its latest accepted read is not followed by its write |
| Registration.CodeAcceptedExactly | kiwi_catalog/services/accounts.py:361-373 | with such a clock a code is accepted exactly when it is that of the latest start of its email, presented in time, and no ticket has been written for the email since |
| Registration.EveryAccountIsEarned | kiwi_catalog/services/accounts.py:311-407 | in every run, reads and writes of verifications interleaved with anything, an account is created only with the latest ticket of its email, used in time, written by a request that had presented, in time, the code that was then that of the latest start |
| Registration.RegisterSucceedsExactly | kiwi_catalog/services/accounts.py:797-847 | with such a clock a registration creates an account exactly when its fields are acceptable, nothing later raises, the email has none, and it is earned in this way |
| Registration.HonestRegistrationSucceeds | kiwi_catalog/services/accounts.py:311-407 | from any state, whoever has no account and goes through start, code and ticket in time gets one |
| Registration.AccountRestsOnLatestStartIff | kiwi_catalog/services/accounts.py:311-407 | in every run each account has exactly one verification behind it, and rests on the code of the latest start if and only if no start came between the read and the write of that verification |
| Registration.OvertakenCodeStillRegisters | kiwi_catalog/services/accounts.py:361-381 | a run in which a start comes in between and an account is created without its code ever being presented |
| Registration.OneCodeOneTicketOneAccount | kiwi_catalog/services/accounts.py:311-407 | each start yields at most one ticket, but for tickets written after the code was gone, and each ticket at most one account, outstanding ones included |
| Registration.SharedCodeMeansOverlap | kiwi_catalog/services/accounts.py:361-381 | two verifications share a code only if both read it before either wrote its ticket |
| BoundedResolver.Resolver.AcquireSlot | kiwi_catalog/discovery/_bounded_dns.py:25-28 | a permit, or the admission timeout |
| BoundedResolver.Resolver.PutNowait | kiwi_catalog/discovery/_bounded_dns.py:29-35 | the item is queued, or the permit is given back when the queue is full |
| BoundedResolver.Resolver.SetRunningOrNotifyCancel | kiwi_catalog/discovery/_bounded_dns.py:39-42 | a cancelled item is skipped, any other runs |
| BoundedResolver.Resolver.TaskDone | kiwi_catalog/discovery/_bounded_dns.py:48-50 | the worker gives the permit back |
| BoundedResolver.SlotsAreConserved | kiwi_catalog/discovery/_bounded_dns.py:17-50 | in every reachable state permits plus admitted items are six, no release overflows, a permit holder finds room in the queue, and at most two items run |
| BoundedResolver.CancelledNeverRuns | kiwi_catalog/discovery/_bounded_dns.py:10-15 | a cancelled item keeps its slot but is never executed |
| BoundedResolver.EverySlotComesBack | kiwi_catalog/discovery/_bounded_dns.py:37-50 | from every reachable state with no caller mid-submit, worker steps alone lead back to six free permits |
| RequestLifecycle.Lifecycle.Register | kiwi_catalog/discovery/fetcher.py:130-137 | the socket is listed, or aborted and refused when the lifecycle is closed or late; none is lost |
| RequestLifecycle.Lifecycle.Expire | kiwi_catalog/discovery/fetcher.py:139-144 | closes the lifecycle, empties the list and aborts everything that was on it |
| RequestLifecycle.NextConserved | kiwi_catalog/discovery/fetcher.py:106-160 | every atomic step keeps: sockets handed over = listed + being aborted + aborted |
| RequestLifecycle.ClosedListStaysEmpty | kiwi_catalog/discovery/fetcher.py:139-144 | once closed, the socket list is empty in every later state |
| RequestLifecycle.NoSocketLeaks | kiwi_catalog/discovery/fetcher.py:155-160 | for every interleaving, once the exit has returned and no registration is mid-abort, every socket ever handed over has been aborted exactly as often as handed over |
| RequestLifecycle.ExitAlwaysReturns | kiwi_catalog/discovery/fetcher.py:139-160 | from every reachable state the steps of the timer, the exit and the threads that owe sockets lead, by themselves and in bounded number, to a returned exit with every socket aborted |
| RequestLifecycle.StuckIsDone | kiwi_catalog/discovery/fetcher.py:139-160 | these steps stop nowhere else: if none of them does anything, the exit has returned and every socket is aborted |
| RequestLifecycle.ThreadPaysOff | kiwi_catalog/discovery/fetcher.py:139-144 | a thread that has taken sockets aborts all of them by its own steps |
| BoundedRead.ReadLimited | kiwi_catalog/discovery/fetcher.py:1114-1164 | however the source splits its bytes and wherever a read raises: the whole body if it is within the limit, an error if longer, unless a read fails or the deadline passes; never more than limit + 1 bytes are taken; a late clock is noticed on the next round |
| SecretScan.BoundsCheck.Walk | kiwi_catalog/discovery/_validation.py:55-83 | passes exactly the values within the depth bound whose nodes fit the remaining count |
| SecretScan.Scanner.Walk | kiwi_catalog/discovery/_validation.py:254-282 | everything below is found, or exactly the cap has been found and something is left to look at |
| SecretScan.ScanSecrets | kiwi_catalog/discovery/_validation.py:242-285 | returns exactly what the uncapped scan finds; raises if and only if there are more than 64 findings, or 64 and then something else to look at |
| SecretScan.ScanFindsSecrets | kiwi_catalog/discovery/_validation.py:242-285 | the scan is empty exactly when no member at any depth is flagged |
| SecretScanExact.ScanIsExact | kiwi_catalog/discovery/_validation.py:242-285 | the scan finds exactly the paths of members flagged for their name or for the string they hold, none of whose containers is flagged |
| SecretScanExact.ScanDistinct | kiwi_catalog/discovery/_validation.py:266-282 | with plain keys it finds each of them once |
| SecretScanExact.DecimalDenotes | kiwi_catalog/discovery/_validation.py:275-282 | the index of an element is written in the decimal digits that denote it |
| SecretScanExact.WithinIsDepth | kiwi_catalog/discovery/_validation.py:55-83 | a value is within a depth exactly if no position in it is longer |
| SecretScanExact.NodesArePositions | kiwi_catalog/discovery/_validation.py:55-83 | the number of nodes is the number of positions |
| SecretScan.ScannedBelow | kiwi_catalog/discovery/_validation.py:266-282 | every path found under a position continues the text of that position |
| PublicProjection.ProjectIsClean | kiwi_catalog/discovery/agent_card.py:285-348 | if the quarantined paths contain the findings of the profile, nothing projected is flagged or has a flagged descendant |
| PublicProjection.ProjectIsPart | kiwi_catalog/discovery/agent_card.py:285-348 | every projected leaf is the source leaf at the same keys; lists keep the order of their elements |
| ProjectionExact.ProjectExact | kiwi_catalog/discovery/agent_card.py:293-297 | with plain keys the projection by path texts is the projection that asks each member whether it is tainted |
| ProjectionExact.DottedKeyHidesCleanMember | kiwi_catalog/discovery/agent_card.py:293-297 | with a dot in a key, a flagged url.token also hides a clean url |
| ProjectionMembers.CardSchema | kiwi_catalog/discovery/agent_card.py:285-348 | the members a public card can have, with the condition of each |
| ProjectionMembers.UcpSchema | kiwi_catalog/discovery/ucp.py:439-558 | the members a public UCP profile can have behind its version, with the condition of each |
| ProjectionMembers.LeafSays | kiwi_catalog/discovery/agent_card.py:293-309 | a leaf is projected as it is exactly if it meets its condition and neither it nor anything below it is quarantined |
| ProjectionMembers.SubSays | kiwi_catalog/discovery/agent_card.py:299-340 | an object is projected exactly if the profile has one and something of it is projected |
| ProjectionMembers.EachSays | kiwi_catalog/discovery/agent_card.py:313-329 | a list is projected as its objects of which something is projected, in order |
| ProjectionMembers.NothingElse | kiwi_catalog/discovery/agent_card.py:285-348 | no other member is ever public |
| ProfileParser.KeepLeaves | kiwi_catalog/discovery/agent_card.py:299-309 | the loop over leaf keys |
| ProfileParser.KeepList | kiwi_catalog/discovery/agent_card.py:313-329 | the loop over a list of objects, skills, endpoints or specifications |
| ProfileParser.ProjectCard | kiwi_catalog/discovery/agent_card.py:285-348 | the card projection, loop by loop, computes the card's projection schema |
| ProfileParser.ProjectUcp | kiwi_catalog/discovery/ucp.py:439-558 | the UCP projection, loop by loop, computes its schema behind the unconditional version |
| UcpNormalize.Normalize | kiwi_catalog/discovery/ucp.py:86-211 | the adapter, loop by loop; what its outcome says is stated by the members of UcpNormalizeMeaning |
| UcpNormalize.ExtendedIs | kiwi_catalog/discovery/ucp.py:153-157 | declared capability ids first, then each root id below the service once, nothing lost and nothing added |
| UcpNormalize.EntryMembers | kiwi_catalog/discovery/ucp.py:182-196 | a capability entry has its id as id and label, and a version, specification or schema exactly if one is declared |
| UcpNormalize.NoCapabilityDisappears | kiwi_catalog/discovery/ucp.py:86-211 | services keep their order, and every root capability below a service is claimed by it with an entry at the same place, without a version if none is declared |
| UcpNormalizeMeaning.NormalizedExactly | kiwi_catalog/discovery/ucp.py:111-133 | a profile without a ucp object is left alone; any other is refused exactly for a missing version, missing services or a service that declares nothing, whichever is first |
| UcpNormalizeMeaning.ProfileSays | kiwi_catalog/discovery/ucp.py:196-211 | the version is the stripped one, the identity the declared one exactly if its id is filled, and a list of specifications is kept |
| UcpNormalizeMeaning.ServiceSays | kiwi_catalog/discovery/ucp.py:160-178 | of every service: a list of endpoints is kept; a filled address gives one endpoint with it as uri, the transport or a2a as protocol and the version if filled; without either there is none; type, description and documentation |
| UcpNormalizeMeaning.ListedCapabilities | kiwi_catalog/discovery/ucp.py:150-152 | ids that a service lists come first, in its order |
| UcpNormalizeMeaning.MappedCapabilities | kiwi_catalog/discovery/ucp.py:141-149 | of a map the ids that declare something come first, in its order |
| UcpNormalizeMeaning.ServiceDeclarationFirst | kiwi_catalog/discovery/ucp.py:183-188 | what the service declares about a capability goes before what the root says |
| ProfileParser.ProjectionIsSound | kiwi_catalog/discovery/agent_card.py:285-348 | for either schema: scanning the public projection finds nothing, it is part of the profile, and with plain keys only tainted members are missing |
| ProfileParser.ParseCard | kiwi_catalog/discovery/agent_card.py:102-170 | succeeds if and only if the bounds hold, the source has a host, the value is an object, the other validators pass and the scan passes; then the public projection is clean, part of the card and complete up to taint; a refusal has the error of the first failing check |
| ProfileParser.ParseUcp | kiwi_catalog/discovery/ucp.py:254-326 | the same for a UCP profile, normalised first, given that no allowed version looks like a secret |
| CardStore.StoredTwice | kiwi_catalog/a2a/card_store.py:116-156 | storing a card with sorted keys and reading it back is stable, so its etag survives storage |
| CardStore.StoredAscends | kiwi_catalog/a2a/card_store.py:116-122 | the keys of a stored card are in ascending order at every depth |
| CardStore.StoredMembers | kiwi_catalog/a2a/card_store.py:116-122 | every object of it holds exactly the members it had, each stored in its turn |
| CardPublication.ActiveBinding | kiwi_catalog/a2a/card_store.py:196-201 | the active binding with the greatest version, or none if no binding is active |
| CardPublication.Validate | kiwi_catalog/a2a/card_store.py:204-297 | card and digest of an acceptable publication, or the error of the first failing check |
| CardPublication.Verdict | kiwi_catalog/a2a/card_store.py:204-297 | no error exactly for publications whose outer fields and card are as required and whose card, if a runtime is bound, points at its endpoint and nowhere off its origin |
| CardPublication.AcceptedExactly | kiwi_catalog/a2a/card_store.py:204-297 | the conditions spelled out, in both directions |
| CardPublication.ProfileErrorExactly | kiwi_catalog/a2a/card_store.py:204-297 | a refusal is a profile error exactly if the publication is complete and the first URL problem is a URL without a host |
| CardPublication.SameAuthorityExactly | kiwi_catalog/discovery/_validation.py:166-177 | a host shares an authority exactly if it is that host or lies behind a name and a dot; trailing dots do not count |
| CardPublication.DigestExactly | kiwi_catalog/a2a/card_store.py:238-245 | a digest is sha256, a colon and 64 lower-case hexadecimal digits |
| CardStore.CardTables.CreateRevision | kiwi_catalog/a2a/card_store.py:300-334 | a publication accepted under the newest active binding appends the next revision of the agent and returns its etag; anything else is refused with the error of the first failing check |
| CardStore.CardTables.BeginActivation | kiwi_catalog/a2a/card_store.py:337-363 | which reads refuse an activation, and with which error |
| CardStore.CardTables.BeginState | kiwi_catalog/a2a/card_store.py:393-413 | which reads refuse a state change, and with which error |
| CardStore.CardTables.ActivateCard | kiwi_catalog/a2a/card_store.py:337-390 | compare-and-set of the active revision; succeeds exactly for a stored revision and the expected active one |
| CardStore.CardTables.EndActivation | kiwi_catalog/a2a/card_store.py:364-379 | the guarded write of an activation, whatever it finds |
| CardStore.CardTables.EndState | kiwi_catalog/a2a/card_store.py:414-418 | the guarded write of a state change, which may find no row |
| CardStore.CardTables.SetPublicationState | kiwi_catalog/a2a/card_store.py:393-429 | compare-and-set of the state |
| CardStore.CardTables.ReadActiveCard | kiwi_catalog/a2a/card_store.py:432-466 | the active card with its stored etag, or not found, gone or quarantined |
| CardStore.NextKeepsInv | kiwi_catalog/a2a/card_store.py:300-429 | every call, whatever earlier state it has read, keeps: revisions 1..n, the active revision exists, the stored etag is that of its card |
| CardStore.VersionsOnlyGrow | kiwi_catalog/a2a/card_store.py:300-334 | rows are never changed or removed |
| CardStore.EtagPromiseIsKept | kiwi_catalog/a2a/card_store.py:300-390 | in every run a revision keeps the bytes and digest it was created with, and whenever it is active the stored etag is the one its creation returned |
| CardStore.ActivationsFormAChain | kiwi_catalog/a2a/card_store.py:337-380 | in every run, whatever each call had read, the successful activations of an agent form a chain: each one expected exactly the revision of the one before it |
| CardStore.StateChangeTakesEffectIff | kiwi_catalog/a2a/card_store.py:393-429 | a state change answered with success takes effect if and only if the latest activation before its write was for the revision it expected; otherwise nothing changes |
| CardStore.OvertakenWithdrawalIsLost | kiwi_catalog/a2a/card_store.py:414-418 | without the lock a withdrawal that an activation overtakes reports success and leaves the card public |
| CardStore.ServedCardsWereAccepted | kiwi_catalog/a2a/card_store.py:300-466 | in every run a card that can be read is that of an earlier accepted publication of the agent |
| CardStore.CreatedCardIsServed | kiwi_catalog/a2a/card_store.py:300-466 | what is created and then activated is what is served, with the etag that its creation returned |
| CardStore.WithdrawnIsGoneUntilRevived | kiwi_catalog/a2a/card_store.py:393-466 | a withdrawn card is gone until an activation or a state change to ACTIVE or PAUSED, and each of these brings it back |
| CardStore.ReadsAreConsistent | kiwi_catalog/a2a/card_store.py:432-466 | in every run a card that is read is that of the active revision and hashes to the etag returned with it |
| ListingLifecycle.SelectByKey | kiwi_catalog/listings/sqlite_repository.py:95-115 | the matching row with the greatest id; none only if no row matches |
| ListingLifecycle.PublishListing | kiwi_catalog/listings/service.py:105-216 | upsert by key with owner, hold and capacity checks, the release of a quarantine and the re-read after an index violation |
| ListingLifecycle.PublishIsUpsert | kiwi_catalog/listings/service.py:105-216 | a successful publish with a key leaves exactly one row of that key, carrying the payload, public and without a hold; it was created if and only if there was none; no other row is touched |
| ListingRules.PublishExactly | kiwi_catalog/listings/service.py:84-216 | a validated publish succeeds if and only if its owner is clear, no row of its key is under a governance hold, and a runtime finds capacity |
| ListingRules.PublishRefusals | kiwi_catalog/listings/service.py:84-216 | which error a refused publish gets: no owner, no capacity, or not permitted |
| ListingLifecycle.CarryOutKeyed | kiwi_catalog/listings/service.py:105-216 | a publish that was overtaken between its reads and its write keeps the key unique |
| ListingLifecycle.OvertakenPublishKeepsHoldsIff | kiwi_catalog/listings/service.py:169-193 | such a publish keeps ACTIVE rows free of holds if and only if the row it refreshes is under none by then, or under the quarantine it set out to release |
| ListingLifecycle.WithdrawListing | kiwi_catalog/listings/service.py:219-235 | succeeds only for a listing of that id and merchant, which is then WITHDRAWN with all else as it was; not found exactly if no row has the id; an error changes nothing |
| ListingRules.WithdrawalExactly | kiwi_catalog/listings/service.py:219-235 | a withdrawal succeeds if and only if the listing exists and belongs to the merchant, and what it leaves |
| ListingRules.WithdrawnUntilRepublished | kiwi_catalog/listings/service.py:219-235 | in every run, until its key is published again, a withdrawn listing stays WITHDRAWN with its hold and contents and no search returns it |
| ListingLifecycle.ReinstateListing | kiwi_catalog/listings/service.py:238-273 | the reinstatement and its errors |
| ListingRules.ReinstatementExactly | kiwi_catalog/listings/service.py:238-273 | a reinstatement succeeds if and only if the stated conditions hold, and then the listing is ACTIVE without a hold |
| ListingRules.ReinstatementRefusals | kiwi_catalog/listings/service.py:238-273 | which error a refused reinstatement gets |
| ListingLifecycle.SuspendOwnedListings | kiwi_catalog/listings/policy.py:34-44 | row by row: exactly the ACTIVE listings of the owner become SUSPENDED under a governance hold with the current time; no other field and no other row changes |
| ListingLifecycle.NextGrows | kiwi_catalog/listings/service.py:105-273 | what any event may do to a row: identity is kept, activation needs a clear owner, a governance hold goes only by an admin reinstate |
| ListingLifecycle.ActiveListingsAreClear | kiwi_catalog/listings/service.py:105-273 | in every run an ACTIVE listing has hold 0 and an owner that is not suspended |
| ListingLifecycle.ActivationAndRelease | kiwi_catalog/listings/service.py:84-273 | in every run a listing becomes ACTIVE only by publish or reinstate while its owner is neither suspended nor rejected, and a governance hold is cleared only by an administrator's reinstate of that listing |
| ListingLifecycle.WithdrawnUnderHoldIsFinal | kiwi_catalog/listings/service.py:219-273 | a listing withdrawn under a governance hold is never ACTIVE again, not even by an administrator |
| ListingLifecycle.KeysStayUnique | kiwi_catalog/listings/sqlite_repository.py:95-256 | over every run of validated publishes (owner, type, upsert key) is unique |
| ListingLifecycle.ValidatedPublishFindsItsRow | kiwi_catalog/listings/sqlite_repository.py:95-115 | a validated publish finds the row of its key or none, and meets neither unique index |
| ListingLifecycle.MixedKeysBreakUniqueness | kiwi_catalog/listings/contracts.py:201-226 | without the validated shape two rows come to answer to one key |
| StateDomains.FoldInvertsDomains | kiwi_catalog/agent_catalog/state_domains.py:102-116 | every legacy status survives the domains; domains survive the status exactly when at most one of them deviates |
| StateDomains.FoldExactly | kiwi_catalog/agent_catalog/state_domains.py:102-116 | what each status says about the domains: governance before freshness before level |
| StateDomains.AgentTable.Update | kiwi_catalog/agent_catalog/sqlite_repository.py:175-243 | the private update helper with its two derivations |
| StateDomains.WholeDomainsAgree | kiwi_catalog/agent_catalog/sqlite_repository.py:201-219 | given all three domains or none the helper keeps status and domains in agreement |
| StateDomains.GivenDomainsAgreeIff | kiwi_catalog/agent_catalog/sqlite_repository.py:212-219 | given domains but no status it writes an agreeing row if and only if the domain that decides the fold is among them |
| StateDomains.PartialDomainsDrift | kiwi_catalog/agent_catalog/sqlite_repository.py:212-219 | one such input, which no public writer supplies: marking a suspended agent stale |
| StateDomains.AgentTable.Insert | kiwi_catalog/agent_catalog/sqlite_repository.py:92-151 | a new row holds the domains its status implies |
| StateDomains.AgentTable.Upsert | kiwi_catalog/agent_catalog/sqlite_repository.py:246-293 | insert or update by status |
| StateDomains.AgentTable.SetVerificationStatus | kiwi_catalog/agent_catalog/sqlite_repository.py:666-687 | a status write is a write of the three domains it implies |
| StateDomains.AgentTable.SetStateDomains | kiwi_catalog/agent_catalog/sqlite_repository.py:711-756 | missing domains stay, unknown ones are refused, the fold is written with them |
| StateDomains.AgentTable.Touch | kiwi_catalog/agent_catalog/sqlite_repository.py:690-708 | the heartbeat revives freshness of an active agent only |
| StateDomains.AgentTable.SetMerchant | kiwi_catalog/agent_catalog/sqlite_repository.py:759-761 | rebinding the merchant touches no domain |
| StateDomains.AgentTable.Register | kiwi_catalog/services/agent_catalog_writes.py:266-293 | re-registration is an upsert as discovered; the direct write behind it changes nothing |
| StateDomains.StatusAlwaysAgrees | kiwi_catalog/agent_catalog/sqlite_repository.py:154-293 | after any sequence of writers every status is the fold of its three domains |
| StateDomains.StatusReadsBack | kiwi_catalog/agent_catalog/sqlite_repository.py:246-293 | the status that an upsert or a status write is given is the one that is read back, and no other row changes |
| StateDomains.HeartbeatsRespectGovernance | kiwi_catalog/agent_catalog/sqlite_repository.py:690-708 | heartbeats never change the administrative domain or the level, never revive a suspended or rejected agent, and do make an active one fresh |
| StateDomains.BackfillAgreesIff | kiwi_catalog/db/migrations.py:346-365 | the backfill leaves a row in agreement exactly when it held the defaults or agreed already |
| StateDomains.LegacyDatabaseAgrees | kiwi_catalog/db/migrations.py:346-365 | a database from before the domains agrees from the backfill on |

## Left out

- The guard for an empty fetch (`kiwi_catalog/listings/search.py:323-326`): the loop leaves before the budget is used up, so the branch is never taken.
- Search filters other than owner and freshness are one predicate on type and content; their validation errors are not modelled.
- `list_listings_by_owner`: its order key is rewritten by expiry, so only the walk over a still table would apply to it.
- Percent-encoding and base64 of cursors are taken as lossless; malformed and legacy agent cursors are only refused by the source and are not modelled.
- Floating-point numbers in canonical JSON: they depend on `repr` and `Decimal`.
- The canonical text is a sequence of code points; its UTF-8 bytes are modelled one code point at a time and for the
  length limit.
- Timestamps are integers on one scale where the source always writes the same format, and text where it compares text.
- ListingLifecycle.PublishListing: capacity and entitlement checks are a boolean, and the digest is computed by the caller.
- RequestNonce.NonceLedger.Verify: signature verification is a predicate, the newest active binding of a key is looked up by the caller, and a binding expiry without an offset, which makes the comparison itself raise, does not occur.
- Rate limits, audit rows, sessions, merchant shadow rows and mail texts.
- RequestLifecycle.NoSocketLeaks: closing an operating-system socket is taken to succeed.
- Profile parsing: the schema, version, URL and authority validators that only look and raise are one predicate, and the derived capability and skill rows are left out.
- ProfileParser.ParseCard: the patterns of secret names and values are parameters, with the condition that no container key of the formats is itself named like a secret, which the word list meets. Strings that are list elements are not scanned, as in the source.
- CardPublication.Validate: the leak scan, the card parser, the text of a value that is not a string, and the host of a URL are parameters.
- CardStore.CardTables.EndActivation: the endpoint rows that are synchronised in the same transaction are not modelled.
- Verification state machines, trust evaluation, route matching, serializers and metrics: finite tables or single-branch facts.
