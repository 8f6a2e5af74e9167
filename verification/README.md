# zyrouter: proofs about the gateway's state machines

zyrouter-go stands between clients and language-model providers. This project models the parts of it
that are state machines, incremental parsers and table protocols, and proves what holds over all of
their runs. Each module names the source file it follows.

* **OpenAI to Claude translation.** `StreamTranslator` is the per-session machine that turns chunk
  deltas into numbered content blocks; `EventGrammar` and `StreamGrammar` say when its output is a
  complete Claude message; `BatchTranslator`, `StreamRefinesBatch` and `StreamDifferences` relate it to the
  non-streaming translation; `Sessions`, `SessionIsolation` and `FragmentRejoin` treat the shared tables, and
  `SessionStreams` carries the results about single streams over to every interleaving of sessions.
* **Server-sent events.** `SseLines`, `SseCopy` and `SseCopyTheorems` cover the pass-through that
  replaces error events and stops at `[DONE]`; `SseScanner` and `SseScannerTheorems` the scanner and
  the writer it undoes. Both readers differ from sections 9.2.5 and 9.2.6 of the WHATWG HTML Living
  Standard: a carriage return alone ends no line, an event the body ends in is passed on instead of
  discarded, a byte order mark is not removed, and a `data` line without a colon is no field.
* **Limiters.** `LoginLimiter`, `LoginOverlap` (requests in any interleaving), `LoginLimiterTheorems` (one
  attempt at a time) and `SlidingWindow`.
* **Tables.** `KeyMigration`, `KeysetPaging`, `KeysetUnderChange`, `Quota`, `Verification` and
  `VerificationTheorems`; each transaction is one step.
* **Messages, bytes and trees.** `ToolResponses`, `EventStreamFrames` (the framing of
  application/vnd.amazon.eventstream), `ToolCallIds`, `ToolCloaking` and `SchemaCleaning`.

Objects that the source updates in place are classes here, and their methods are proved against
functions on values (`View()` is the value of an object); the theorems are about those functions and
about runs of them. Text is a sequence of bytes, one `char` for one byte. `dafny verify dfyconfig.toml`
checks everything.

Where a promise does not hold of the code as it is, the code is kept and the exact condition is proved:

* A tool index that gets a second id loses its earlier block, which is then never stopped
  (`WellFormedIffWellBehaved`; `TwoIdsForOneIndex`). The gateway produces such streams itself: every tool
  call of a Gemini stream gets index 0 and an id of its own (backend/internal/translator/gemini.go:565-571),
  and these chunks go to this translator (backend/internal/handlers/chat/gemini_handler.go:416).
* A tool call without arguments is `{}` in the batch form and empty in the stream, and thinking that
  comes after text or tools stays where it came (`StreamRefinesBatch`; `NoArgumentsDiffer`,
  `LateThinkingDiffers`).
* From fifty sessions on, a call of any session drops a stream older than ten minutes, although it is
  live; the stream then starts again with a message_start (`OtherCall`; `PrunedSessionStartsAgain`).
* A fragment that takes the buffer to 1 MiB is refused, unless it completes the payload (`PiecesRejoin`;
  `LongPieceIsRefused`).
* A body without any SSE field that ends inside a line loses the lines collected before
  (`BytesConserved`; `PlainTextLosesLines`).
* The login limiter tests the lock and records the failure in separate critical sections, with the
  password comparison between them. With k attempts of an address under way at once, 2k + 6 of its
  failures fit into five minutes instead of 8, and a late failure can lift the lock
  (`OverlapBoundIsExact`, `LateFailureUnlocksIff`; `OverlapReachesBound`).
* The quota check adds in 64 bits: a request so large that the sum wraps around is granted, whatever the
  limit, and the bound on used and reserved tokens is lost (`GrantedBeyondLimitIffWrapped`,
  `LimitHoldsIffNoWrap`; `HugeRequestIsGranted`). The size comes from the client's `max_tokens`
  (backend/internal/handlers/chat/fallback.go:598-612).
* A request for less than one token reserves one and releases none (`ReservedIffNoLeak`;
  `EmptyRequestLeaks`). The one caller there is asks for at least 16
  (backend/internal/handlers/chat/fallback.go:609-611), so this needs another caller.
* A row with an unreadable timestamp ends a walk over the ledger early (`CompleteIffReadable`;
  `UnreadableRowIsLost`), and a blank one at the end of the first page gives a cursor that is refused
  (`WalkIsStuckIff`, `WalkFinishesIff`).
* A call with an empty id gets one more placeholder on every pass (`IdempotentIffNoEmptyIds`;
  `EmptyIdGrows`).
* The reader of event-stream headers takes every kind of value to have a length in front, which the
  fixed-size kinds do not have: a boolean header hides the headers behind it (`ReadsOnBehindIff`;
  `BooleanHidesHeader`).
* A separator inside a name or a signature makes ids ambiguous (`DecodesIffSeparable`, `NameSurvivesIff`;
  `SeparatorInSignatureCuts`, `SeparatorInNameClashes`).
* A tool name of the client's own that ends in `_ide` is cut when the request was not cloaked
  (`UncloakedSurvivesIffUnsuffixed`; `SuffixedNameIsCut`). Answers are always uncloaked
  (backend/internal/translator/gemini.go:404 and 563), requests are cloaked only with a project id
  (backend/internal/proxy/gemini.go:62-64) and tools, so a plain Gemini request that declares tools is
  affected too.
* The map of parameters is itself cleaned as a schema, so parameters named like keywords vanish while
  they stay required (`ParameterSurvivesIff`; `TitleIsLost`), and anyOf can come back (`AnyOfStaysIff`;
  `AnyOfComesBack`).

## Model

| member | source | states |
|---|---|---|
| StreamTranslator.StreamState.constructor | backend/internal/translator/response.go:327-341 | a new session state: cleaned message id, defaulted model, no open block, no tool |
| StreamTranslator.StreamState.StopThinkingBlock | backend/internal/translator/response.go:85-94 | whole new state and the events added: a stop for the open thinking block, or nothing |
| StreamTranslator.StreamState.StopTextBlock | backend/internal/translator/response.go:96-106 | the same for the text block, including its closed flag |
| StreamTranslator.StreamState.RecordUsage | backend/internal/translator/response.go:346-364 | only positive counters overwrite the usage collected so far; nothing else changes |
| StreamTranslator.StreamState.OnReasoning | backend/internal/translator/response.go:404-429 | reasoning closes an open text block, opens a thinking block if there is none, and adds one delta to it |
| StreamTranslator.StreamState.OnContent | backend/internal/translator/response.go:431-456 | content closes an open thinking block, opens a text block if there is none, and adds one delta to it |
| StreamTranslator.StreamState.OnToolFragment | backend/internal/translator/response.go:458-492 | an id closes thinking and text and opens a tool block under the next index; arguments are appended to the buffer of the index |
| StreamTranslator.StreamState.FlushToolCalls | backend/internal/translator/response.go:499-514 | every tool of the map once, in whatever order the map yields: its sanitized arguments, then its stop |
| StreamTranslator.StreamState.OnFinish | backend/internal/translator/response.go:495-548 | open blocks are stopped, tools flushed in some complete order, then message_delta with the mapped stop reason and message_stop |
| StreamTranslator.StreamState.Translate | backend/internal/translator/response.go:346-554 | one chunk on the state record: new state and events are those of the step function, for the tool order that was met |
| EventGrammar.AcceptedIffWellFormed | backend/internal/translator/response.go:369-548 | an independent reader of Claude events accepts exactly the streams in which message_start comes first and only there, message_delta and message_stop end the stream, block indices are 0, 1, 2, … , each start has exactly one later stop and each stop a start, deltas lie inside their block, and thinking and text never overlap |
| EventGrammar.StaysClosed | backend/internal/translator/response.go:85-106 | in an accepted stream a stopped block never opens again |
| StreamGrammar.WellFormedIffWellBehaved | backend/internal/translator/response.go:346-548 | for every run over every chunk sequence and every tool-map order: the events are well-formed if and only if some chunk finishes, everything after it is silent, and no tool index gets an id twice before it |
| StreamGrammar.ReadRun | backend/internal/translator/response.go:346-548 | the invariant behind it: until the first finishing chunk the reader mirrors the open blocks of the session, with the blocks lost to a repeated tool index left open |
| StreamGrammar.TrackAnnounce | backend/internal/translator/response.go:463-488 | announcing a tool under an index already in use loses the earlier block, and only then |
| StreamGrammar.TwoIdsForOneIndex | backend/internal/translator/response.go:468-478 | a message of one chunk that names two calls under index 0 and finishes: not well-formed |
| BatchTranslator.Translate | backend/internal/translator/response.go:109-246 | the non-streaming translation: error without choices, otherwise id, model, thinking, text and tool blocks, and stop reason |
| BatchTranslator.AppendToolBlocks | backend/internal/translator/response.go:163-183 | one tool_use block per call, in order, with `{}` for empty arguments and sanitized arguments otherwise |
| StreamRefinesBatch.StreamRefinesBatch | backend/internal/translator/response.go:109-554 | for every well-behaved, conformant run and every tool-map order, folding the events by block index gives the batch translation of the merged response if and only if reasoning, content and tool calls came in that order and no tool call came without arguments |
| StreamRefinesBatch.RunSoFar | backend/internal/translator/response.go:346-492 | up to the finishing chunk: what the client has assembled is the merged response so far, or a thinking block behind text, or either behind a tool |
| StreamRefinesBatch.AssembleFlush | backend/internal/translator/response.go:499-514 | flushing the tools listed in any order fills exactly their blocks with their sanitized arguments |
| StreamDifferences.NoArgumentsDiffer | backend/internal/translator/response.go:171-177 | a call without arguments: the stream is well-behaved, conformant and in order, and differs from the batch form |
| StreamDifferences.LateThinkingDiffers | backend/internal/translator/response.go:404-429 | thinking after text: the stream is well-behaved and conformant, and differs from the batch form |
| Sessions.StreamRegistry.constructor | backend/internal/translator/usage.go:10-19 | no session and no fragment at the start |
| Sessions.StreamRegistry.PruneStaleStates | backend/internal/translator/usage.go:30-41 | from 50 sessions on, exactly the sessions older than ten minutes, or without a creation time, are removed |
| Sessions.StreamRegistry.GetStreamUsage | backend/internal/translator/usage.go:43-57 | prunes, removes the session and its fragment, and answers with the usage it had, if any |
| Sessions.StreamRegistry.ClearStreamState | backend/internal/translator/usage.go:59-65 | prunes, and removes the state and the fragment of the session; nothing else changes |
| Sessions.StreamRegistry.FindOrCreate | backend/internal/translator/response.go:317-344 | after pruning, the state of the session or a new one, except for a chunk without choices |
| Sessions.StreamRegistry.TranslateChunk | backend/internal/translator/response.go:309-554 | finds or creates the state of the session (none for a chunk without choices) and takes one step on it, for a tool order that lists every tool once if the chunk finishes the message |
| Sessions.StreamRegistry.Translate | backend/internal/translator/response.go:260-554 | one call: blank input, [DONE], rejoined fragments, held fragments, parse errors, and the chunk, with a tool order complete as above |
| SessionIsolation.SessionsAreIsolated | backend/internal/translator/response.go:289-344 | for every interleaving of translate, usage and clear calls, the replies of a session, and the state and fragment it leaves, are those of its calls alone, if no call that prunes finds it older than ten minutes in a table of fifty |
| SessionIsolation.ShortLivedIsUndisturbed | backend/internal/translator/usage.go:30-41 | if, until a session is read or cleared, no call of any session comes more than ten minutes after one of its chunks, it is never pruned, so isolation holds for it |
| SessionIsolation.OwnCall | backend/internal/translator/response.go:289-344 | one call of a session gets the reply it would get alone |
| SessionIsolation.OtherCall | backend/internal/translator/usage.go:43-65 | a call of another session leaves state and fragment of this one as they are exactly when it does not prune it |
| SessionIsolation.PrunedSessionStartsAgain | backend/internal/translator/usage.go:30-41 | a run of 52 calls over fifty sessions in which a live session starts again with message_start |
| SessionStreams.SessionIsARun | backend/internal/translator/response.go:260-554 | in every interleaving in which it is not pruned, what a session has been sent since it was last read or cleared, and the state it has, are those of one valid run of the translator over the chunks it completed |
| SessionStreams.SessionIsWellFormedIff | backend/internal/translator/response.go:260-554 | what it has been sent is a complete, well-formed message if and only if those chunks are well-behaved |
| SessionStreams.SessionRefinesBatch | backend/internal/translator/response.go:109-554 | and assembles to the batch translation if and only if the deltas came in order and with arguments |
| FragmentRejoin.PiecesRejoin | backend/internal/translator/response.go:288-307 | a payload delivered in pieces gives exactly the reply and the table that the whole would give, with nothing written before, if and only if the text before the last piece is below 1 MiB; a parsed payload leaves no fragment behind |
| FragmentRejoin.HeldSoFar | backend/internal/translator/response.go:300-305 | below the limit every piece is held and nothing is written |
| FragmentRejoin.RefusedAtLimit | backend/internal/translator/usage.go:20-28 | the piece that takes the buffered text to the limit, if it is not the last, is answered with an error |
| FragmentRejoin.LongPieceIsRefused | backend/internal/translator/response.go:298-306 | a payload of 1 MiB and one byte, cut behind the first 1 MiB, is refused there although the whole would parse |
| SseLines.LinesSplit | backend/internal/proxy/sse.go:116-140 | more input only adds lines, beginning with the unfinished rest |
| SseCopy.SanitizeEvent | backend/internal/proxy/sse.go:44-64 | the safe error frame for an event that is an error, by its event name or by one of its data payloads; otherwise the lines as they are |
| SseCopy.FlushEvent | backend/internal/proxy/sse.go:87-113 | nothing for no lines; otherwise one frame, and whether the copy ends and how |
| SseCopy.FinishCopy | backend/internal/proxy/sse.go:141-173 | what the end of the upstream writes, in the branches with and without an SSE field |
| SseCopy.SSECopy | backend/internal/proxy/sse.go:82-176 | however the body is cut into reads, the frames and the result are those of the batch splitter on the concatenation |
| SseCopy.StoppedForGood | backend/internal/proxy/sse.go:124-134 | once some complete lines end the copy, nothing that follows matters |
| SseCopyTheorems.NothingAfterDone | backend/internal/proxy/sse.go:94-134 | no frame follows one that carries [DONE] or is the error frame |
| SseCopyTheorems.BytesConserved | backend/internal/proxy/sse.go:116-173 | when no event heard is an error and no write fails, every byte other than line ends reaches the client in order, up to the end of the first event that carries [DONE] or of the body if there is none, if and only if what is heard is not a body whose collected last lines are dropped |
| SseCopyTheorems.CopiesHeard | backend/internal/proxy/sse.go:82-176 | the frames written are exactly the events heard, as they are, and what the end of the body adds |
| SseCopyTheorems.HeardEvents | backend/internal/proxy/sse.go:94-134 | only the last complete event heard may carry [DONE], and then nothing of it is left open |
| SseCopyTheorems.PlainTextLosesLines | backend/internal/proxy/sse.go:142-162 | a concrete such body: of two lines of plain text, the second unfinished, the first is lost |
| SseScanner.ScanStream | backend/internal/proxy/sse_scanner.go:17-57 | the payloads handed on for any input, and whether a line over the limit stopped the scan |
| SseScanner.StreamWriter.WriteChunk | backend/internal/proxy/stream_writer.go:26-36 | appends one `data:` event and reports its length |
| SseScannerTheorems.ScanUndoesWrite | backend/internal/proxy/stream_writer.go:26-47 | scanning what was written returns exactly the payloads, in order, if and only if each is non-empty, has no line feed, does not end in a carriage return and is short enough for the scanner’s buffer |
| SseScannerTheorems.DataLinesReassemble | backend/internal/proxy/sse_scanner.go:23-55 | an event sent as several data lines is passed on as one payload joined by line feeds |
| SseScannerTheorems.CommentsIgnored | backend/internal/proxy/sse_scanner.go:42-45 | comment lines, wherever they stand, change nothing |
| SseScannerTheorems.NoEmptyPayload | backend/internal/proxy/sse_scanner.go:23-33 | the call-back never gets an empty payload |
| LoginLimiter.Limiter.LoginLocked | backend/internal/handlers/auth_handlers.go:41-49 | locked, and for how long, at and before the end of the lock |
| LoginLimiter.Limiter.PruneFull | backend/internal/handlers/auth_handlers.go:54-60 | from 10000 addresses on, exactly the entries whose window and lock are over are removed |
| LoginLimiter.Limiter.RecordLoginFailure | backend/internal/handlers/auth_handlers.go:51-79 | the new table and the answer: count, window, lock and remaining attempts |
| LoginLimiter.Limiter.ClearLoginFailures | backend/internal/handlers/auth_handlers.go:81-85 | forgets the address and nothing else |
| LoginOverlap.OverlapIsBounded | backend/internal/handlers/auth_handlers.go:18-146 | lock test and recording are two steps, and steps of other attempts lie between: over every such run with any number of addresses, in which at most k attempts of one address are past the lock test and not over at a time, no five-minute interval between two of its successes holds more than 2k + 6 of its failures |
| LoginOverlap.OverlapBoundIsExact | backend/internal/handlers/auth_handlers.go:18-146 | a number bounds the failures of all these runs if and only if it is at least 2k + 6, so attempts that overlap break the bound of 8 |
| LoginOverlap.OverlapReachesBound | backend/internal/handlers/auth_handlers.go:18-146 | for every k a run with 2k + 6 failures in one interval |
| LoginOverlap.LateFailureUnlocksIff | backend/internal/handlers/auth_handlers.go:61-70 | in every reachable state: a failure recorded while its address is locked lifts the lock if and only if the window of the first failure is over |
| LoginOverlap.PruningDoesNotShow | backend/internal/handlers/auth_handlers.go:54-60 | in every run, overlapping or not, every lock test and every recorded failure is answered as by a table that is never pruned |
| LoginLimiterTheorems.FailuresAreBounded | backend/internal/handlers/auth_handlers.go:18-146 | one attempt at a time: over every run with any number of addresses, between two successes of one address no five-minute interval holds more than 8 of its failures |
| LoginLimiterTheorems.BoundIsReached | backend/internal/handlers/auth_handlers.go:18-146 | a run of attempts one at a time whose failures reach that bound, so it is exact |
| SlidingWindow.RateLimiter.Reset | cloudflare/verification-gateway-worker/src/index.js:60-65 | forgets all hits |
| SlidingWindow.RateLimiter.Fetch | cloudflare/verification-gateway-worker/src/index.js:67-79 | trims the log to the window, and accepts and logs the request if it then holds fewer than the limit |
| SlidingWindow.AcceptedIffBelowLimit | cloudflare/verification-gateway-worker/src/index.js:67-79 | a request is accepted exactly when fewer than `limit` acceptances of the whole history lie in the window ending with it |
| SlidingWindow.WindowIsBounded | cloudflare/verification-gateway-worker/src/index.js:67-79 | no half-open interval of the window length holds more than `limit` accepted requests |
| SlidingWindow.HitsAreRecent | cloudflare/verification-gateway-worker/src/index.js:70-78 | although old hits are discarded, the stored log trims to what the full history trims to |
| KeyMigration.UniqueMaskedAPIKey | backend/internal/db/schema.go:489-506 | the first free mask among the base and its numbered variants; the search ends although it has no bound of its own |
| KeyMigration.CandidatesRunOut | backend/internal/db/schema.go:495-505 | pigeonhole: a table cannot hold more candidates than it has rows |
| KeyMigration.KeyStore.MigrateOne | backend/internal/db/schema.go:437-471 | one row gets mask and hash, and the administrator tier unless a client owns it |
| KeyMigration.KeyStore.MigrateLegacyGatewayKeys | backend/internal/db/schema.go:401-487 | one transaction: nothing when the marker is set; otherwise all legacy rows in the listed order, the counters, and the marker; keys stay unique |
| KeyMigration.MigrationKeepsMatches | backend/internal/db/schema.go:429-477 | with an injective hash every row answers to exactly the secrets it answered to before |
| KeyMigration.MigrationKeepsLookup | backend/internal/db/repos.go:44-53 | the lookup by secret finds the same rows before and after |
| KeyMigration.MigrationKeepsUnique | backend/internal/db/schema.go:489-506 | keys stay pairwise different through every row |
| KeyMigration.NothingLegacyLeft | backend/internal/db/schema.go:412-436 | no legacy row is left, so a second run would find nothing to do |
| KeyMigration.UntouchedYet | backend/internal/db/schema.go:446-470 | when its turn comes a row is as the query saw it, so the guarded update hits it and Hashed equals Found |
| KeysetPaging.BuildPage | backend/internal/db/usage.go:178-207 | the page of the rows read: cut to size, with a next cursor exactly when a row more was read |
| KeysetPaging.GetScopedUsageLogs | backend/internal/db/usage.go:152-208 | the page behind a cursor, with a limit outside 1 to 100 replaced by 50 and an invalid cursor refused |
| KeysetPaging.CursorRoundTrip | backend/internal/pagination/cursor.go:17-35 | the cursor of a readable row comes back as it was |
| KeysetPaging.SortIsUnique | backend/internal/db/usage.go:171-176 | the ledger order is one order: there is only one way to sort the rows |
| KeysetPaging.WalkInvariant | backend/internal/db/usage.go:152-208 | after k pages the walk holds the first k·size rows of the ledger as it was at the start, whatever was inserted ahead of the cursor |
| KeysetPaging.WalkIsComplete | backend/internal/db/usage.go:152-208 | a finished walk has returned every row that was there at the start, once, newest first, in max(1, ceil(n/size)) pages, although rows were inserted ahead of it |
| KeysetUnderChange.WalkUnderChange | backend/internal/db/usage.go:152-208 | whatever is added and removed between two pages, anywhere in the ledger: what a walk returns was in the table when its page was read and stands in ledger order over all pages, so no row comes twice; and a finished walk has returned every readable row that was there at every page |
| KeysetUnderChange.ListedOnPage | backend/internal/db/usage.go:159-207 | a page of such a walk is the front of the rows then in the table that lie behind the last row of the page before |
| KeysetPaging.CompleteIffReadable | backend/internal/db/usage.go:159-176 | over a fixed ledger a finished walk has returned every row if and only if they fit on one page or every timestamp can be read |
| KeysetPaging.LastRowIsLost | backend/internal/db/usage.go:159-176 | with an unreadable timestamp and more rows than a page, the last row of the ledger is on no page |
| KeysetPaging.NextPageRefusedIffBlank | backend/internal/pagination/cursor.go:22-35 | the cursor of a page is refused exactly when the timestamp of its last row is blank |
| KeysetPaging.WalkIsStuckIff | backend/internal/db/usage.go:152-208 | a walk that has more to fetch cannot go on exactly when it is at its first page and the timestamp of that page’s last row is blank |
| KeysetPaging.WalkFinishesIff | backend/internal/db/usage.go:152-208 | over a fixed ledger the cursors lead to an end if and only if the rows fit on one page or the last row of the first page has a timestamp that is not blank |
| KeysetPaging.UnreadableRowIsLost | backend/internal/db/usage.go:159-176 | of two rows, one unreadable, a finished walk with pages of one row returns one |
| Quota.QuotaStore.ReserveUserQuota | backend/internal/db/users.go:716-755 | unmetered tiers pass; otherwise at least one token is reserved if used, reserved and requested stay within the limit |
| Quota.QuotaStore.FinalizeUserQuota | backend/internal/db/users.go:757-772 | releases the reservation, not below zero, and adds the real count |
| Quota.QuotaIsSafe | backend/internal/db/users.go:716-772 | over every interleaving: reserved equals what running requests hold plus one token per finished request that asked for less than one; no release is cut off at zero; and if no check wrapped around, used plus reserved exceeds the limit by no more than the overruns |
| Quota.GrantedBeyondLimitIffWrapped | backend/internal/db/users.go:748-750 | a request is granted beyond the limit exactly when the sum in the check reaches 2^63 |
| Quota.LimitHoldsIffNoWrap | backend/internal/db/users.go:748-750 | the bound holds throughout a run if and only if no check of the run wraps around (the second half while limit and overruns together stay below 2^63) |
| Quota.HugeRequestIsGranted | backend/internal/db/users.go:748-750 | a run of three calls under a limit of a million that ends with 2^63 tokens reserved or used |
| Quota.ReservedIffNoLeak | backend/internal/db/users.go:716-772 | reserved equals what the running requests hold if and only if no finished request had asked for less than one token |
| Quota.EmptyRequestLeaks | backend/internal/db/users.go:716-772 | a finished request for nothing leaves one token reserved |
| Verification.Repo.CreateVerificationChallenge | backend/internal/db/users.go:172-178 | a pending challenge under a new id |
| Verification.Repo.MarkChallengeTelegramVerified | backend/internal/db/users.go:195-242 | refusals without effect; otherwise others waiting for the same Telegram id are superseded and this one waits for its code |
| Verification.Repo.UpsertUser | backend/internal/db/users.go:268-301 | the user of the Telegram id, renamed, or a new one if the account type is in use |
| Verification.Repo.CompleteVerification | backend/internal/db/users.go:246-309 | all refusals, the counted wrong code, the banned user, and the completion |
| Verification.Repo.VerifyChallenge | backend/internal/db/users.go:324-380 | the one-step form |
| Verification.Repo.GetVerificationStatus | backend/internal/db/users.go:382-397 | the status, expiring an overdue pending challenge on the way |
| VerificationTheorems.ServeKeeps | backend/internal/db/users.go:195-397 | every call keeps the invariant and moves every challenge only along the allowed edges, with Telegram id, browser binding and code hash kept and attempts never falling |
| VerificationTheorems.AlwaysValid | backend/internal/db/users.go:195-397 | in every reachable state at most one challenge per Telegram id waits for its code, attempts are at most 5, and Telegram ids of users are unique |
| VerificationTheorems.FinalForGood | backend/internal/db/users.go:195-397 | completed, superseded, verified and expired are final |
| VerificationTheorems.CompletesOnce | backend/internal/db/users.go:302-304 | no challenge completes twice in any run |
| VerificationTheorems.CompletionNamesTheUser | backend/internal/db/users.go:246-309 | a completion answers with the one user carrying the Telegram id recorded by the one call that proved the challenge, given a code that hashes like the one issued |
| VerificationTheorems.WaitingWasMarked | backend/internal/db/users.go:195-242 | a challenge waiting for its code was proved by exactly one earlier call, whose Telegram id and code hash it carries |
| ToolResponses.FixMissingToolResponses | backend/internal/translator/request.go:191-237 | the scan over the growing list ends with the repaired list |
| ToolResponses.EveryCallIsAnswered | backend/internal/translator/request.go:195-234 | of every list: each call of each assistant message is answered in the unbroken run of tool messages behind it |
| ToolResponses.OnlyInserts | backend/internal/translator/request.go:218-231 | taking placeholders out of the result gives the input back in order, and there are exactly as many as there were open calls |
| ToolResponses.UnchangedIffNothingOpen | backend/internal/translator/request.go:212-218 | a list is left alone exactly when no call is open |
| ToolResponses.IdempotentIffNoEmptyIds | backend/internal/translator/request.go:200-217 | a second pass changes nothing if and only if no call has an empty id |
| ToolResponses.EmptyIdGrows | backend/internal/translator/request.go:200-217 | one call with an empty id: one placeholder after the first pass, two after the second |
| EventStreamFrames.EventStreamReader.ReadFull | backend/internal/providers/eventstream.go:29-36 | fills the buffer from an offset, fewer bytes than asked for only at the end |
| EventStreamFrames.EventStreamReader.ReadPrelude | backend/internal/providers/eventstream.go:30-41 | the prelude and its two lengths, or nothing when the stream ends before it is complete |
| EventStreamFrames.EventStreamReader.ReadBody | backend/internal/providers/eventstream.go:54-59 | the whole frame, prelude included, or nothing when the stream ends inside it |
| EventStreamFrames.EventStreamReader.ReadHeaders | backend/internal/providers/eventstream.go:63-93 | on any bytes: the headers up to the first that is cut short, with every index in range |
| EventStreamFrames.EventStreamReader.ReadFrame | backend/internal/providers/eventstream.go:29-106 | on any bytes: end of stream, a broken frame, or headers and payload, and exactly what is left to read |
| EventStreamFrames.HeaderRoundTrip | backend/internal/providers/eventstream.go:65-93 | an encoded string or byte-array header is read back and the rest is read as it would be alone |
| EventStreamFrames.DistinctNamesAllKept | backend/internal/providers/eventstream.go:63-93 | with distinct names the map holds exactly the headers written |
| EventStreamFrames.FramesRoundTrip | backend/internal/providers/eventstream.go:29-106 | repeated reading of frames written back to back with string and byte-array headers gives every frame exactly as written; a cut inside a further frame is noticed exactly if it lies behind that frame’s prelude, otherwise the stream just ends |
| EventStreamFrames.ReadsOnBehindIff | backend/internal/providers/eventstream.go:77-92 | behind a header of any kind and value the reader goes on where the next one starts if and only if the two bytes behind the kind give the number of bytes of the value that follow them, and then reads the rest as it would be alone |
| EventStreamFrames.BooleanHidesHeader | backend/internal/providers/eventstream.go:77-92 | a boolean header in front of a string header: none is read, while the string header alone is |
| ToolCallIds.CollectNames | backend/internal/translator/gemini.go:172-188 | the id-to-function map of the assistant messages |
| ToolCallIds.LatestCallNames | backend/internal/translator/gemini.go:174-187 | an id stands for the function of the last call that bears it, in full or without signature |
| ToolCallIds.DecodesIffSeparable | backend/internal/translator/gemini.go:346-353 | signature and plain id come back from an encoded id if and only if the separator occurs nowhere it could be mistaken |
| ToolCallIds.PlainSignatureIsSeparable | backend/internal/translator/gemini.go:346-353 | in particular every signature without an underscore comes back |
| ToolCallIds.NameDecodesIffNamed | backend/internal/translator/gemini.go:256-265 | the function name comes back from a plain id exactly when it is not empty |
| ToolCallIds.NameSurvivesIff | backend/internal/translator/gemini.go:256-265 | the function name comes back from an id, signed or not, if and only if it is not empty and the separator occurs nowhere it could be mistaken |
| ToolCallIds.SameCleanIdIff | backend/internal/translator/gemini.go:404-408 | two encoded ids are equal without signature if and only if they carry the same function and the same number |
| ToolCallIds.ResultFindsItsFunction | backend/internal/translator/gemini.go:246-266 | whatever encoded calls the conversation holds, a result for an encoded id goes to the function that was called |
| ToolCallIds.SeparatorInNameClashes | backend/internal/translator/gemini.go:404-408 | two different functions that share an id, so the condition on names is needed |
| ToolCallIds.SeparatorInSignatureCuts | backend/internal/translator/gemini.go:346-353 | a signature that holds a separator does not come back |
| ToolCloaking.CloakAntigravityRequest | backend/internal/translator/antigravity.go:85-176 | the cloaked request and the map for its answer; a request without tools goes as it is |
| ToolCloaking.CollectDecls | backend/internal/translator/antigravity.go:104-123 | client declarations cloaked in order, the map, and which kinds of tool were met |
| ToolCloaking.Deduplicate | backend/internal/translator/antigravity.go:125-134 | the first declaration of each non-empty name |
| ToolCloaking.CloakHistory | backend/internal/translator/antigravity.go:136-158 | calls and responses of the history renamed, everything else kept |
| ToolCloaking.UncloakUndoesCloak | backend/internal/translator/antigravity.go:178-189 | every name comes back from its cloaked form, with the map of any request and without a map |
| ToolCloaking.UncloakedSurvivesIffUnsuffixed | backend/internal/translator/antigravity.go:178-189 | a name that was never cloaked survives exactly when it does not end in `_ide` |
| ToolCloaking.SuffixedNameIsCut | backend/internal/translator/antigravity.go:178-189 | `x_ide`, never cloaked, becomes `x` |
| ToolCloaking.DeclaredNames | backend/internal/translator/antigravity.go:104-134 | names are declared once, and none but native and suffixed ones |
| ToolCloaking.DecoysAreDeclared | backend/internal/translator/antigravity.go:125-134 | every native name is declared |
| ToolCloaking.ClientDeclarationsSurvive | backend/internal/translator/antigravity.go:104-134 | a client declaration that is the first of its name is declared in full, cloaked; only a native one from Copilot is not |
| SchemaCleaning.StripUnsupported | backend/internal/translator/schema.go:13-46 | removes exactly the listed keywords and the vendor extensions |
| SchemaCleaning.FlattenBranches | backend/internal/translator/schema.go:81-100 | merges the first branch that is more than type null, and removes the key |
| SchemaCleaning.FixRequired | backend/internal/translator/schema.go:123-146 | required keeps the names of properties only, and goes when none is left or it is no list |
| SchemaCleaning.CleanGeminiSchema | backend/internal/translator/schema.go:9-193 | the recursive cleaning of a schema, ending although it puts in placeholders that are visited in turn |
| SchemaCleaning.PreparedInside | backend/internal/translator/schema.go:81-192 | every container of a prepared object is the placeholder or lay strictly inside the object |
| SchemaCleaning.CleanIsTidy | backend/internal/translator/schema.go:9-193 | of every schema: at any depth no unsupported keyword, vendor extension or oneOf is left, no object is empty, type is no list of types, and what calls itself an object has properties |
| SchemaCleaning.AnyOfStaysIff | backend/internal/translator/schema.go:81-103 | an anyOf is left at the top exactly when the branch merged for oneOf has one |
| SchemaCleaning.ParameterSurvivesIff | backend/internal/translator/schema.go:181-192 | of every schema and each parameter it or a merged branch declares: the parameter is still there exactly when its name is no removed keyword and no anyOf or oneOf that is merged away (of one called required only a list of names can be left); and a required one stays required even when it is gone |
| SchemaCleaning.TitleIsLost | backend/internal/translator/schema.go:181-192 | a required parameter called title is gone and still required |
| SchemaCleaning.AnyOfComesBack | backend/internal/translator/schema.go:81-103 | an anyOf inside the branch taken for oneOf is in the result |

## Left out

- JSON text: parsing is a function with the three outcomes parsed, truncated and malformed, and events and messages are values, not text.
- Tool-argument sanitizing (`sanitizeToolArgs`) is an arbitrary function; the refinement assumes what its code does with empty arguments, namely return them as they are.
- Hashing, base64, SQLite's `datetime`, UUIDs and random codes: arbitrary functions or inputs; the migration theorems assume an injective hash.
- Clocks are inputs; `time.Until` is taken to read the same instant as `now`.
- Concurrency inside a call: the translator updates a session's record outside its mutex; here each call is one step, and so is each database transaction. SQLite locking is not modelled.
- Go map iteration is an arbitrary order; no statement depends on which.
- Usage numbers inside stream events beyond the two counters of message_delta, and the deprecated process-wide usage slot.
- StreamRefinesBatch: assumes that a tool fragment without an id follows one with an id for its index, and that no tool arguments come after the finishing chunk; other streams have no merged response to compare with.
- SSECopy: a write either succeeds or fails as a whole; frames written in part, flushing, and the call-back are not modelled.
- ScanStream: lines are values, so the reuse of the scanner's buffer between lines is not modelled, nor are readers that return nothing again and again.
- TrimSpace on non-ASCII white space: only the ASCII space characters are trimmed.
- WalkIsComplete: the exact sequence of rows is stated for rows inserted ahead of the cursor only; WalkUnderChange says what remains of it when rows are deleted, or inserted behind the cursor. Timestamps are taken to be valid UTF-8, so that a cursor survives its encoding.
- QuotaIsSafe: a period that ends, or a tier that changes, between the two calls of one request is outside the statement.
- ReserveUserQuota: the columns are numbers without bounds; a column that itself passes 2^63, which takes a wrapped check or that many used tokens, becomes floating point in SQLite.
- Verification: deleting users, sessions and API keys, and the lookup of a browser's open challenge; banning is the one other user operation that is modelled.
- FramesRoundTrip: covers string and byte-array headers; ReadsOnBehindIff and BooleanHidesHeader say what becomes of the fixed-size kinds. Checksums are not looked at.
- OverlapIsBounded: the clock is read before the mutex is taken; here the critical sections come in the order of their clock readings.
- EventStreamReader.ReadFrame: read errors other than the end of the stream.
- CleanGeminiSchema: children are rebuilt where the code rewrites them in place; parsed JSON shares no subtrees, so the result is the same. How json.Marshal prints an enum item that is no string is an arbitrary function.
- AnyOfStaysIff: is about the top of a schema; inside, the same holds of each child as the cleaning meets it.
- CloakAntigravityRequest: descriptions and parameters are one opaque value, and the fixed calling mode of the tool configuration is left out.
- convertClaudeMessage, tool choice, prompts, image requests and the Gemini stream translator: would add members without new difficulty.
- HTTP handlers, upstream calls, OAuth, Telegram polling, catalogs and pricing, account fallback, backup import and export: input and output, or constant data.
