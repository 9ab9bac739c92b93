# Saqr verification

Saqr watches coding-agent sessions: a CLI and a dashboard show a session's timeline, a daemon takes sessions over under a
PTY, indexes and caches what it sees, and relays it encrypted to a phone, and a sync client uploads it. Most of that is
plumbing around a few small stateful components. Each of them is a mutable, optimised form of something simple: a suffix
of a stream, a naive scan, a filtered history, a sum over a log. This project models those components in Dafny, in the
form the source gives them (objects with fields, loops over arrays, in-place updates), and proves that each is the
simple thing it stands for, over every input, every sequence of calls, or every interleaving of steps.

| module | component | what it is shown to be |
|---|---|---|
| Timeline | merging items into a timeline | the stably sorted history, however the items are batched |
| EventStore, SsePolling, SseDelivery | event reads and server-sent events | exactly-once, in-order delivery under overlapping polls, and exactly when it has a gap |
| RingBuffers, Takeover | PTY output and the writer lock | the last bytes of the output; replay then live is a suffix; one writer at a time |
| SyncQueues | the offline queue | a flush that loses nothing, drains, and is crash-safe at every await |
| RateLimiters | the sliding window | the decision of the full history |
| Tokenizing, SearchIndexes | the inverted index | a naive scan |
| ProjectionCaches | the projection cache | exact accounting, least recently used first, no stale hit |
| Relays, RelayObjects | the end-to-end encrypted relay | order-preserving delivery; an exchange of handshakes that stops |
| UsageProjections, UsageHistory, UsageViews, UsageDays | usage from events | folds that say what the events do; groupings that agree |
| UsageFiles, UsageLines, UsageStarts, ProjectUsage, UsageRollUps | usage from transcripts | per-file results that compose, behind a cache that is never disturbed |
| UsageAggregator | merged usage and weeks | sums over exactly the right days and projects |
| DownloadTokens, TokenGrants, TokenExpiries | download tokens | a parser that inverts the writer; a bounded memory of used texts, and when it makes grants single-use |
| PermissionQueues | permission requests | independent requests, each resolved at most once |
| Scrubber | the session scrubber | the nearest item; a histogram that loses nothing |
| Sorting, Sums, Seqs, Texts, Numbers, Options | shared | stable sorting, grouped sums over any lawful addition, text order and white space, decimal numbers |

Stable sorting is an insertion sort, the contract of `Array.prototype.sort`; `Sorting.StableOrderIsUnique` shows that
nothing depends on that choice. Interleavings at awaits and timers are steps of a state machine. Cryptographic
primitives are functions with one law each: both ends of a key exchange agree (section 6.1 of RFC 7748), and decryption
inverts encryption under the same secret; key derivation (sections 2.2 and 2.3 of RFC 5869) is part of them.

Some promises hold only under a condition. Where that is so, the code is modelled as it is, a lemma or a method exhibits
an input for which the promise fails, and the exact condition is proved:

- Merging in batches is merging at once exactly when, of the calls of the timeline that share a tool-use id, the last one
  has the greatest sequence number (`BatchingIsExact`; `RepeatedIdsBreakBatching`). Timelines with distinct ids, and so
  all that are built from nothing, meet it.
- A side may answer two handshakes when they overlap at an await (`FiveHandshakesCanHappen`). It answers at most one when
  they never do; once its open session awaits nothing, only then; and before that, or after a close, the same holds of the
  answers it owed (`OneResponseUnlessOverlapping`).
- Events reach a client once, in order and without a gap as long as each read can read all files. A client misses an
  event exactly when a delivery moved it past the event's file while the read behind that delivery could not read the
  file, for instance because it was being written (`ExactlyOnceInOrder`; `GapCanHappen`).
- What an earlier process left in the offline queue's manifest is restored exactly when nothing is enqueued and nothing
  cleared before `restore` is called (`EarlierItemsSurviveExactly`; `EnqueueOverwrites`).
- A session's start found by merging two files is the one found by parsing their concatenation exactly when the later
  file has all its timestamps and the earlier start is known, or the later start is no later (`MergeIsUsageOfBoth`;
  `MergeCanDiffer`). Over any number of files: exactly when each file's start that a later file makes the parser forget
  is no earlier than one that none does (`FilesComposeExactly`).
- A token is read back for its file exactly when its expiry is written without a dot (`ReadExactlyWhenDotFree`). Whole
  numbers of seconds are; a time to live with a fraction makes a token that is never good for its file, and that is read
  as one for another file id whose expiry is the fraction (`FractionIsMisread`).
- The comments of `download-tokens.ts` call tokens single-use. The code remembers the texts of tokens, and it forgets them.
  One grant has several texts, because the expiry is read leniently (`LeadingZeroIsAccepted`, `AnotherTextIsAccepted`), and
  with room for two or more, a token is accepted again once enough others were (`AcceptedAgain`). While nothing is
  forgotten, grants are accepted at most once exactly when only texts whose expiry is written as `createToken` writes it
  are let in (`OnceExactlyWhenPlain`), which can be checked on the text before the call; without that proviso, exactly
  when besides there is room for less than two, so that nothing is ever forgotten (`SingleUseIsExact`).
- The reported reset time is exact unless the oldest request was at time 0 (`ResetFreesASlot`; `ResetCanBeLate`).
- Daily and per-session usage agree exactly when every call has a timestamp with a date (`DaysSumToSessions`;
  `UndatedCallIsInNoDay`).
- Memory is within the budget exactly when no stored entry is larger than all of it (`BudgetKeptExactly`), so after a
  `set` exactly when the new entry is not (`ProjectionCache.Set`); one that is gets stored all the same, alone
  (`OversizeIsStored`).

## Model

| member | source | states |
|---|---|---|
| Timeline.MergeIntoTimeline | packages/cli/src/normalization/mergeIntoTimeline.ts:25-65 | the loop over a position index and a list patched in place computes the merge that searches for the last call with the id, then sorts stably by sequence |
| Timeline.AbsorbByIndex | packages/cli/src/normalization/mergeIntoTimeline.ts:41-54 | looking a call up in the index patches the same position as searching the list from the back |
| Timeline.IndexAppend | packages/cli/src/normalization/mergeIntoTimeline.ts:53-58 | the index stays right when an item is appended |
| Timeline.IndexPatch | packages/cli/src/normalization/mergeIntoTimeline.ts:43-48 | the index stays right when a call is patched in place |
| Timeline.IncrementalMergeIsBatchMerge | packages/cli/src/normalization/mergeIntoTimeline.ts:25-65 | for every timeline in which the last call of each id has the greatest sequence number, so for every one with distinct ids, merging A and then B is merging A followed by B, as a sequence |
| Timeline.BatchingIsExact | packages/cli/src/normalization/mergeIntoTimeline.ts:25-65 | for every timeline: all batches may be merged in turn or at once if and only if the last call of each id has the greatest sequence number of those with that id |
| Timeline.OutOfOrderBreaksBatching | packages/cli/src/normalization/mergeIntoTimeline.ts:34-46 | otherwise one report shows the difference: it goes to another call once the timeline is sorted |
| Timeline.MergeKeepsDistinct | packages/cli/src/normalization/mergeIntoTimeline.ts:25-65 | merging keeps tool-use ids distinct |
| Timeline.TimelineIgnoresBatching | packages/cli/src/normalization/mergeIntoTimeline.ts:25-65 | a timeline built up from nothing does not depend on how its items were cut into batches |
| Timeline.RepeatedIdsBreakBatching | packages/cli/src/normalization/mergeIntoTimeline.ts:34-39 | with a repeated id the two ways of merging differ |
| Timeline.AbsorbAllIsHistory | packages/cli/src/normalization/mergeIntoTimeline.ts:41-59 | before sorting, the list is the old items each fused with the later reports on it, then the new history: each new call once, where first reported |
| Timeline.MergeIsSortedHistory | packages/cli/src/normalization/mergeIntoTimeline.ts:25-65 | the result is that list sorted, with distinct ids, and no sequence number after a greater one |
| Timeline.TimelineIsSortedHistory | packages/cli/src/normalization/mergeIntoTimeline.ts:25-65 | over any batches from nothing, the timeline is the sorted history of all items |
| Timeline.FusedKeepsCall | packages/cli/src/normalization/mergeIntoTimeline.ts:71-81 | a merged call keeps its base (position), name and input and has the status of the last report; its output, error and duration are each those of the last report that has one, or else its own |
| Sorting.SortStable | packages/cli/src/normalization/mergeIntoTimeline.ts:61-62 | the sort keeps equivalent elements in their given order |
| Sorting.StableOrderIsUnique | packages/cli/src/normalization/mergeIntoTimeline.ts:61-62 | an ordered sequence that keeps ties in order is unique, so any stable sort gives the same |
| EventStore.ReadEvents | packages/dashboard/src/api/events.ts:258-310 | refuses exactly the invalid ids; otherwise the loop gives the parsed events, in the order of the files' numbers, that pass the restrictions, as far as the limit; RestrictedReadFinds says which those are |
| EventStore.SelectIsSuffix | packages/dashboard/src/api/events.ts:273-301 | reading from a sequence number gives exactly the readable events after it, a suffix of the readable log |
| EventStore.ListingOrderIsIrrelevant | packages/dashboard/src/api/events.ts:270-279 | the order in which the directory lists the files does not matter |
| EventStore.ReadFindsExactly | packages/dashboard/src/api/events.ts:270-305 | of the events after a sequence number, a read finds exactly those whose files it can read just then, in order, in whatever order the directory lists them |
| EventStore.RestrictedReadFinds | packages/dashboard/src/api/events.ts:270-310 | whatever types, timestamp and limit are asked for: a read finds, in order, only events of those types later than that timestamp, whose files it can read; what it leaves out of these comes after a full limit of others |
| EventStore.ReadableMembers | packages/dashboard/src/api/events.ts:272-296 | the readable events are those that the files with numbers of six digits hold |
| EventStore.ValidPathIds | packages/dashboard/src/api/events.ts:61-76 | a valid id is 1 to 256 ASCII letters, digits, dots, underscores and hyphens |
| Texts.LeqByFirstDifference | packages/dashboard/src/api/events.ts:293 | texts compare as they do where they first differ; a prefix comes first |
| SsePolling.SseManager.AddClient | packages/dashboard/src/api/sse.ts:49-90 | a new client starts after the given sequence, alive, with nothing received |
| SsePolling.SseManager.RemoveClient | packages/dashboard/src/api/sse.ts:92-96 | a removed client is no longer alive nor listed; the others stay |
| SsePolling.SseManager.GroupClients | packages/dashboard/src/api/sse.ts:112-119 | each live client is in exactly the group of its session |
| SsePolling.SseManager.MinLastSeq | packages/dashboard/src/api/sse.ts:124 | the least lastSeq in the group |
| SsePolling.SseManager.DeliverEvents | packages/dashboard/src/api/sse.ts:133-145 | offers every event, in order, to every client of the group: taken exactly when alive and newer than its lastSeq, and a failed write makes the client dead |
| SsePolling.SseManager.SweepDead | packages/dashboard/src/api/sse.ts:151-154 | leaves exactly the live clients, in order |
| SsePolling.GroupKeyNamesOneSession | packages/dashboard/src/api/sse.ts:116 | a group key with valid ids belongs to one session only |
| SseDelivery.StepKeepsInv | packages/dashboard/src/api/sse.ts:111-155 | appends, joins, leaves, and every step of every overlapping poll keep the delivery invariant |
| SseDelivery.OfferAllKeepsCaughtUp | packages/dashboard/src/api/sse.ts:133-145 | offering a client what a read shows of the log after where the client stands keeps it exact, whatever writes fail; what it skips could not be read; if it stays alive, it is past all that was offered |
| SseDelivery.SnapshotFits | packages/dashboard/src/api/sse.ts:124-131 | a read from the least lastSeq shows, as far as it goes, all of the log that anyone in the group still needs, but for files it could not read |
| SseDelivery.ExactlyOnceInOrder | packages/dashboard/src/api/sse.ts:111-155 | in every reachable state, whatever files each read could not read: what a client received is, once each and in order, exactly the log after its start and up to its lastSeq, but for the events that a delivery passed while its read could not read their files |
| SseDelivery.NoGapWhenReadable | packages/dashboard/src/api/sse.ts:111-155 | when every read could read all files, that is all of the log after its start and up to its lastSeq |
| SseDelivery.GapCanHappen | packages/dashboard/src/api/sse.ts:124-145 | a run after which a client lacks the first of two events: its file could not be read when a poll delivered the second |
| SseDelivery.DeliveryCatchesUp | packages/dashboard/src/api/sse.ts:133-145 | after a delivery, a client still alive has every event of the log as it was read, after its start, but for what could not be read then and what it had skipped before |
| RingBuffers.RingBuffer.Write | packages/daemon/src/sessions/ring-buffer.ts:57-92 | the buffer holds the last capacity bytes of everything written since the last clear, and totalWritten counts every byte ever written |
| RingBuffers.RingBuffer.GetContents | packages/daemon/src/sessions/ring-buffer.ts:101-136 | the logical bytes without the first k, empty when k is at least the size |
| RingBuffers.RingBuffer.Clear | packages/daemon/src/sessions/ring-buffer.ts:141-145 | forgets the contents but not the total |
| RingBuffers.RingBuffer.Size | packages/daemon/src/sessions/ring-buffer.ts:150-155 | the number of logical bytes |
| RingBuffers.LastIsSuffix | packages/daemon/src/sessions/ring-buffer.ts:101-136 | the last bytes of a stretch are its end |
| RingBuffers.LastOfLast | packages/daemon/src/sessions/ring-buffer.ts:66-91 | keeping the last n bytes early does not change which bytes are last in the end |
| RingBuffers.WrapAround | packages/daemon/src/sessions/ring-buffer.ts:84-90 | writing across the physical end leaves the last bytes of old contents followed by data |
| RingBuffers.FitToEnd | packages/daemon/src/sessions/ring-buffer.ts:76-83 | the same for data that fits before the physical end, which wraps when it is reached exactly |
| RingBuffers.RunOfWrites | packages/daemon/src/sessions/ring-buffer.ts:57-92 | any sequence of writes of any sizes leaves the last capacity bytes of their concatenation |
| Takeover.TakenOverSession.OnData | packages/daemon/src/sessions/session-takeover.ts:188-200 | a chunk is stored and sent to every connected client |
| Takeover.TakenOverSession.OnExit | packages/daemon/src/sessions/session-takeover.ts:202-223 | every client gets the notice with the exit code after the output so far, and the session ends; later calls find none |
| Takeover.TakenOverSession.AddClient | packages/daemon/src/sessions/session-takeover.ts:269-278 | no session is an error; otherwise a new id that sees all output from here on |
| Takeover.TakenOverSession.Attach | packages/daemon/src/sessions/session-takeover.ts:255-278 | reading the buffer and joining in one step replays the last capacity bytes of the output so far |
| Takeover.TakenOverSession.RemoveClient | packages/daemon/src/sessions/session-takeover.ts:286-296 | forgets the client; the lock is free afterwards if it held it, and otherwise stays with whoever has it |
| Takeover.TakenOverSession.ClaimWriter | packages/daemon/src/sessions/session-takeover.ts:307-317 | granted exactly when the session is open and nobody else holds the lock; then, and only then, the lock is the caller's |
| Takeover.TakenOverSession.ReleaseWriter | packages/daemon/src/sessions/session-takeover.ts:325-332 | the lock of an open session is free afterwards if the caller held it; otherwise nothing changes |
| Takeover.TakenOverSession.SendInput | packages/daemon/src/sessions/session-takeover.ts:342-352 | reaches the PTY exactly when the session is open and the client holds the lock |
| Takeover.ReplayThenLive | packages/daemon/src/sessions/session-takeover.ts:188-200 | replay followed by everything sent since joining is a suffix of the whole output, and all of it when no more than the capacity had been written by then |
| Takeover.AttachedClientSeesASuffix | packages/daemon/src/sessions/session-takeover.ts:188-223 | so it is for a client's whole view at any later moment; the only other thing it has been given is the notice of an exit |
| Takeover.SingleWriter | packages/daemon/src/sessions/session-takeover.ts:307-352 | over all calls, accepted inputs of two different clients are separated by the first giving up the lock and the second then claiming it |
| Takeover.HolderUntilGivenUp | packages/daemon/src/sessions/session-takeover.ts:286-332 | a holder stops holding only by releasing or leaving |
| Takeover.HolderHasClaimed | packages/daemon/src/sessions/session-takeover.ts:307-317 | a holder has claimed the lock when it was free |
| Takeover.HoldsExactly | packages/daemon/src/sessions/session-takeover.ts:286-332 | after any calls, a client holds the lock if and only if it claimed it when it was free and has neither released it nor left since |
| SyncQueues.SyncQueue.Enqueue | packages/sync-client/src/queue.ts:69-83 | appends a new item with the payload and no retries, and brings the manifest up to date |
| SyncQueues.SyncQueue.Ack | packages/sync-client/src/queue.ts:91-96 | drops the head and persists; an empty queue is left alone |
| SyncQueues.SyncQueue.FlushQueue | packages/sync-client/src/queue.ts:115-158 | the loop, with any sends, failures and arrivals at its two awaits, takes the turns of the queue's specification; it reports the number of items that were sent and the number of the others |
| SyncQueues.SyncQueue.Restore | packages/sync-client/src/queue.ts:180-196 | the queue becomes what the manifest holds, empty when that is missing or corrupted |
| SyncQueues.SyncQueue.Clear | packages/sync-client/src/queue.ts:229-239 | empties the queue and removes the manifest |
| SyncQueues.FlushHandlesEachOnce | packages/sync-client/src/queue.ts:119-157 | a flush handles the items present at its start exactly once and in order, and leaves what arrived and the failed items in turn order |
| SyncQueues.FlushOutcomes | packages/sync-client/src/queue.ts:119-157 | of each item, and with the item as it was queued: dead-lettered if and only if it has ten retries, else sent if and only if the sender took it; what remains is exactly what arrived and the failed items, each with its id, payload and time of enqueueing, one more retry, and the time and error of its own rejection |
| SyncQueues.QueueIsGiven | packages/sync-client/src/queue.ts:69-239 | after any calls, in any process: whatever is queued or in the manifest has the payload with which its id was enqueued or found in the manifest |
| SyncQueues.SentAsGiven | packages/sync-client/src/queue.ts:115-196 | so has whatever a flush then gives to the sender |
| SyncQueues.FlushConserves | packages/sync-client/src/queue.ts:119-157 | as multisets of ids: queued plus arrived is remaining plus sent plus dead-lettered |
| SyncQueues.FlushIsCrashSafe | packages/sync-client/src/queue.ts:123-155 | from a state in which the manifest holds the items of the queue, so it does at every await and at the end |
| SyncQueues.QueueIsBacked | packages/sync-client/src/queue.ts:69-239 | after any calls, in any process: the manifest holds the items of the queue, if there are any |
| SyncQueues.CrashLosesNothing | packages/sync-client/src/queue.ts:115-196 | so in every valid state of the object, and at every await of every flush, restoring brings back the items of the queue |
| SyncQueues.EarlierItemsSurviveExactly | packages/sync-client/src/queue.ts:69-83 | what an earlier process left is restored if and only if nothing was enqueued and nothing cleared before |
| SyncQueues.FlushesRaise | packages/sync-client/src/queue.ts:123-155 | each flush without arrivals raises every remaining item's retries, and none remains past the limit |
| SyncQueues.QueueDrains | packages/sync-client/src/queue.ts:123-155 | from non-negative retries, eleven flushes without arrivals empty the queue whatever the sender does |
| SyncQueues.FailingFlushesKeep | packages/sync-client/src/queue.ts:123-155 | ten do not suffice: flushes that all fail keep a fresh item until the eleventh |
| SyncQueues.BackoffDoublesThenStays | packages/sync-client/src/queue.ts:25-40 | the delay starts at a second, doubles through 32 seconds, and is 60 seconds exactly from a retry count of six on |
| RateLimiters.RateLimiter.IsRateLimited | packages/daemon/src/security/middleware.ts:296-329 | with a clock that does not run back: a request is turned away if and only if as many were admitted in the window that ends with it as are permitted, and joins the admissions otherwise, cleanup or not |
| RateLimiters.RateLimiter.CleanUp | packages/daemon/src/security/middleware.ts:303-310 | pruning every entry and dropping the empty ones changes nothing inside the window |
| RateLimiters.RateLimiter.GetRateLimitStatus | packages/daemon/src/security/middleware.ts:262-288 | what remains is what is permitted less the admissions in the window, as long as those are fewer, and only then is any left; the reset time is that of the full history |
| RateLimiters.PrunedDecides | packages/daemon/src/security/middleware.ts:318-328 | the pruned entry and the history agree on the window |
| RateLimiters.LimitedExactly | packages/daemon/src/security/middleware.ts:318-328 | what is kept of the history counts the admissions in the window, so it turns away exactly when they are as many as permitted |
| RateLimiters.CountInCounts | packages/daemon/src/security/middleware.ts:318-322 | that count is the number of admissions in the half-open window |
| RateLimiters.NoWindowHoldsMore | packages/daemon/src/security/middleware.ts:296-329 | wherever a half-open window of this length is placed, it holds no more admissions than permitted |
| RateLimiters.AdmissionsAreBounded | packages/daemon/src/security/middleware.ts:296-329 | so it is for every client in every state of the limiter |
| RateLimiters.ResetFreesASlot | packages/daemon/src/security/middleware.ts:279-287 | waiting for the reported reset frees a slot, and no shorter wait does, if and only if the oldest request in the window is not at time 0 or it is time 0 now |
| RateLimiters.ResetCanBeLate | packages/daemon/src/security/middleware.ts:279-282 | after a request at time 0, a minute is reported at time 1 although the slot is free a millisecond before |
| Tokenizing.TokenizeSplitsAtSeparators | packages/daemon/src/store/search-index.ts:128-139 | white space and each of the listed punctuation marks splits a text: the terms of both sides, in order |
| Tokenizing.TokenizeWord | packages/daemon/src/store/search-index.ts:133-139 | a text without separators is its lower-case form, or nothing when that is a stop word, a single character, or over a hundred long |
| SearchIndexes.SearchIndex.IndexEvent | packages/daemon/src/store/search-index.ts:248-282 | the index holds the postings of all events so far, per term in order |
| SearchIndexes.SearchIndex.Search | packages/daemon/src/store/search-index.ts:290-353 | the loops over query terms and their locations, the sort and the slice give the page of the full results |
| SearchIndexes.PostingsAreFieldTerms | packages/daemon/src/store/search-index.ts:248-282 | a posting exists exactly for a term of a searchable field of an indexed event |
| SearchIndexes.SearchedFields | packages/daemon/src/store/search-index.ts:393-473 | which texts of an event are searched, and how often each, by its type: prompts, tool names, a tool's input, errors, responses up to 500 characters, directories and models |
| SearchIndexes.InputCounts | packages/daemon/src/store/search-index.ts:416-430 | of a tool's input: the command, the pattern, the path and each component of the path |
| SearchIndexes.ComponentsSplit | packages/daemon/src/store/search-index.ts:419-423 | a slash splits a path: the components of both sides, in order |
| SearchIndexes.ComponentOne | packages/daemon/src/store/search-index.ts:419-423 | a path without slashes is one component, or none when it is empty |
| SearchIndexes.CountFound | packages/daemon/src/store/search-index.ts:304-327 | what the index finds for an id is what a scan of all postings counts, with multiplicity |
| SearchIndexes.ScoreIsFieldMatches | packages/daemon/src/store/search-index.ts:248-327 | that score is, summed over the events with the id and over their fields that pass the filters, the number of pairs of a query term and a field term that are equal |
| SearchIndexes.ResultsHaveEventScores | packages/daemon/src/store/search-index.ts:248-353 | every result has the score that such a scan of the indexed events gives it |
| SearchIndexes.SearchIsNaiveScan | packages/daemon/src/store/search-index.ts:290-353 | the full results are exactly the ids with a positive score, each once, with that score; none comes after one with a lower score, nor, of equal scores, after one that is earlier |
| SearchIndexes.FoundExactlyWhenMentioned | packages/daemon/src/store/search-index.ts:248-353 | an event is found if and only if a searched field of an event with that id has a term of the query, the event being of the project, the session and one of the types asked for, as far as any are |
| SearchIndexes.FirstMatchIsShown | packages/daemon/src/store/search-index.ts:317-325 | the location shown for an event is its first match |
| SearchIndexes.ResultShowsFirstMatch | packages/daemon/src/store/search-index.ts:304-347 | in terms of the index: the location of the first occurrence that passes of the first query term that has any |
| SearchIndexes.PagesConcatenate | packages/daemon/src/store/search-index.ts:350-352 | consecutive pages make up the page of both, and the whole list is one page; a page has the results from its offset on, as many as the limit or as there are |
| ProjectionCaches.ProjectionCache.Get | packages/daemon/src/store/projection-cache.ts:96-118 | a hit is the value last set for the key, not invalidated since and not expired; it becomes the most recently used; an expired entry goes |
| ProjectionCaches.ProjectionCache.Set | packages/daemon/src/store/projection-cache.ts:128-156 | the new entry is in; of the others exactly the least recently used go, down to four fifths of the budget, and only when it does not fit; memory is exact, and within budget if and only if the new entry alone is; the eviction counter rises by the number that went |
| ProjectionCaches.BudgetKeptExactly | packages/daemon/src/store/projection-cache.ts:128-156 | in every valid state of the cache, memory is within the budget if and only if no entry is larger than all of it; otherwise that entry is alone |
| ProjectionCaches.OversizeIsStored | packages/daemon/src/store/projection-cache.ts:128-156 | an entry larger than the whole budget is stored alone and read back, with more memory used than the budget |
| ProjectionCaches.ProjectionCache.EvictIfNeeded | packages/daemon/src/store/projection-cache.ts:249-269 | nothing when the new entry fits, else the least recently used entries and no more of them than it takes, each counted |
| ProjectionCaches.MadeRoomExactly | packages/daemon/src/store/projection-cache.ts:249-269 | of entries that go, all were accessed before any that stays; with the new entry, those that stay fit four fifths of the budget, if any stay, and would not together with the last one that went |
| ProjectionCaches.ProjectionCache.Invalidate | packages/daemon/src/store/projection-cache.ts:163-169 | the key goes, and nothing else |
| ProjectionCaches.ProjectionCache.InvalidateForSession | packages/daemon/src/store/projection-cache.ts:177-197 | exactly the keys that mention the project and, if given, the session go |
| ProjectionCaches.ForSessionExactly | packages/daemon/src/store/projection-cache.ts:181-190 | a key mentions an id when it is some text, the id, and some text |
| ProjectionCaches.ProjectionCache.Clear | packages/daemon/src/store/projection-cache.ts:202-205 | nothing is left, and no memory counted |
| ProjectionCaches.EvictionIsDetermined | packages/daemon/src/store/projection-cache.ts:253-268 | the target and the order of access determine which entries are evicted |
| ProjectionCaches.SortedListing | packages/daemon/src/store/projection-cache.ts:257-259 | the sorted listing has every entry once, oldest access first |
| RelayObjects.E2EERelay.SendHandshakeMessage | packages/daemon/src/security/e2ee-relay.ts:175-189 | if there is a session, sends one message, a handshake with the public key and the next number |
| RelayObjects.E2EERelay.SendText | packages/daemon/src/security/e2ee-relay.ts:197-220 | exactly when established: sends one message, with the next number, that decrypts under the shared secret to the text given |
| RelayObjects.E2EERelay.HandleIncoming | packages/daemon/src/security/e2ee-relay.ts:288-340 | drops a number that is not new; a handshake starts an agreement that finishes later; what data decrypts to, if anything, is delivered, and nothing else ever is |
| RelayObjects.E2EERelay.FinishHandshake | packages/daemon/src/security/e2ee-relay.ts:254-283 | establishes the shared secret and responds when it was to |
| RelayObjects.E2EERelay.CloseSession | packages/daemon/src/security/e2ee-relay.ts:225-244 | tells the peer, and drops the session |
| Relays.DeliveredInOrderOnce | packages/daemon/src/security/e2ee-relay.ts:288-340 | over a network that drops, duplicates and reorders, with any interleaving: the texts handed to a peer are an order-preserving, duplicate-free part of the texts the other side was asked to send |
| Relays.SaidTextIsDelivered | packages/daemon/src/security/e2ee-relay.ts:197-333 | in every reachable state with both sides established: a text that one is asked to send goes out as one message, and arriving at the other, if that has seen no later number, it is handed over as it was given |
| Relays.NewTextIsDelivered | packages/daemon/src/security/e2ee-relay.ts:299-333 | an established peer delivers any text newer than all it has seen |
| Relays.OneResponseUnlessOverlapping | packages/daemon/src/security/e2ee-relay.ts:254-320 | a peer that never accepts a handshake while an earlier one awaits sends at most one response; with an open session that awaits nothing, it has sent at most one if and only if it never did; and it owed at most one if and only if it never did |
| RelayObjects.RunIsItsHistory | packages/daemon/src/security/e2ee-relay.ts:175-340 | over any run, the first peer is what its own part of the run makes of it |
| RelayObjects.ObjectsArePeers | packages/daemon/src/security/e2ee-relay.ts:175-340 | two valid relay objects whose calls and arrivals are those of the two sides of a run are in the states of its two peers, so what holds of the peers of a run holds of relay objects |
| Relays.AtMostFourHandshakes | packages/daemon/src/security/e2ee-relay.ts:175-320 | with atomic handling and one sendHandshake a side, four handshakes at most |
| Relays.AtMostFiveHandshakes | packages/daemon/src/security/e2ee-relay.ts:175-320 | with any interleaving at the awaits, five at most |
| Relays.FiveHandshakesCanHappen | packages/daemon/src/security/e2ee-relay.ts:254-320 | the five are reached by an interleaving in which one side responds twice |
| UsageProjections.CostAdds | packages/daemon/src/store/usage-projection.ts:52-60 | the exact cost of a sum of tokens is the sum of the costs |
| UsageProjections.PricesPerMillion | packages/daemon/src/store/usage-projection.ts:29-60 | the price of a million tokens of each kind, by model |
| UsageProjections.SessionTotalsAreSums | packages/daemon/src/store/usage-projection.ts:188-286 | for every event stream and session: totals are the sum of the turns, the per-tool counts add up to the tool counters, the turns claim no more tool calls than there were, and the cost is the sum of the turns' costs |
| UsageProjections.ProcessAllOk | packages/daemon/src/store/usage-projection.ts:188-286 | so it is in every reachable state, with every session once, under its own key |
| UsageHistory.SessionTellsItsEvents | packages/daemon/src/store/usage-projection.ts:180-286 | for every event stream and key: there is a session if and only if an event concerns it; of its events since its last start, totals are the sums of what the completed turns report, there is one turn for each of them with its own report, tool calls and prompt, and completed and failed tool calls are counted, for each tool and altogether |
| UsageViews.UsageProjection.ProcessEvent | packages/daemon/src/store/usage-projection.ts:188-286 | the sessions map is the fold of the events, of which SessionTellsItsEvents says what it holds |
| UsageViews.UsageProjection.GetDailyUsage | packages/daemon/src/store/usage-projection.ts:338-448 | the loop's days, each once in order of date, and totals that are their sum |
| UsageViews.UsageProjection.GetUsageByModel | packages/daemon/src/store/usage-projection.ts:453-505 | the loop's entry for each model |
| UsageViews.DaysAreExact | packages/daemon/src/store/usage-projection.ts:342-422 | each day is built of exactly the sessions that start on it |
| UsageViews.DayCountsAgree | packages/daemon/src/store/usage-projection.ts:360-422 | within a day, the session count is the sum of the counts by model and of those by agent; tokens and cost agree too |
| UsageViews.ModelsAreExact | packages/daemon/src/store/usage-projection.ts:456-500 | each model's entry is the total of its sessions, and its first and last use are the earliest and latest start |
| UsageDays.DayTellsSessions | packages/daemon/src/store/usage-projection.ts:342-395 | there is a day if and only if a session starts on it, with the ids of its sessions and the sums over them of turns, tokens of each kind, and costs |
| UsageDays.DayPartsTellSessions | packages/daemon/src/store/usage-projection.ts:396-422 | within a day, there is a model or an agent if and only if a session of that day has it, with the sums over those sessions |
| UsageDays.ModelsTellSessions | packages/daemon/src/store/usage-projection.ts:456-500 | there is a model if and only if a session has it, with the sums over its sessions |
| UsageDays.OfProjectMembers | packages/daemon/src/store/usage-projection.ts:345-346 | the sessions of a project are exactly those tracked with its id |
| UsageViews.ViewsAgree | packages/daemon/src/store/usage-projection.ts:338-505 | over days, over models and over sessions, token, cost and session sums coincide |
| UsageViews.ProjectViewsAgree | packages/daemon/src/store/usage-projection.ts:338-505 | so it is in every reachable state of the projection, for every project |
| UsageFiles.LatestIsLatest | packages/dashboard/src/api/usage.ts:210 | the last call's time is one of the timestamps, and none is later |
| UsageFiles.StartedIsEarliest | packages/dashboard/src/api/usage.ts:209 | when all timestamps are there, the start is one of them, and none is earlier |
| UsageFiles.SessionsAreExact | packages/dashboard/src/api/usage.ts:188-210 | a file's sessions are those that occur, each with the usage of exactly its own calls |
| UsageFiles.ModelIsLastKnown | packages/dashboard/src/api/usage.ts:208 | the model of a stretch of calls is unknown if and only if all theirs are; otherwise it is that of the last call whose model is not |
| UsageFiles.MergedModelIsLastKnown | packages/dashboard/src/api/usage.ts:371 | so is the model of a merged session, over its calls in all files |
| UsageLines.SessionsTellLines | packages/dashboard/src/api/usage.ts:188-206 | in terms of the lines: a session is there if and only if a line is of it, and has one call for each of its lines and the sums of their tokens |
| UsageLines.SessionModelFromLines | packages/dashboard/src/api/usage.ts:188-208 | its model is the last that one of its lines names, and unknown if none does |
| UsageLines.DaysTellLines | packages/dashboard/src/api/usage.ts:212-231 | a day is there if and only if a line's timestamp begins with it, with one call for each of those lines and the sums of their tokens |
| UsageFiles.StartedConcat | packages/dashboard/src/api/usage.ts:209 | the start over two stretches of calls: the later one's when that has a call without timestamp or no start was known, else the earlier of both |
| UsageFiles.MergeIsUsageOfBoth | packages/dashboard/src/api/usage.ts:361-375 | merging a session of two files gives the usage of both stretches of calls but for the start, and the start too if and only if the later has all its timestamps and the earlier start is known, or the later start is no later |
| UsageFiles.MergeCanDiffer | packages/dashboard/src/api/usage.ts:209-372 | two transcript lines of one session, the first without timestamp, for which the starts differ |
| UsageFiles.FilesCompose | packages/dashboard/src/api/usage.ts:163-390 | parsing the lines of any files one by one and merging is parsing the lines of their concatenation: sessions always but for starts, altogether when every call has a timestamp; days always |
| UsageStarts.FilesComposeExactly | packages/dashboard/src/api/usage.ts:209-390 | over any number of files: a session comes out of the merge as out of parsing the concatenation if and only if each file's start that a later file makes the parser forget is no earlier than one that none does |
| UsageFiles.SessionsSumToCalls | packages/dashboard/src/api/usage.ts:414-428 | the counts over all merged sessions are those of all calls of all files |
| UsageFiles.DaysSumToSessions | packages/dashboard/src/api/usage.ts:212-231 | the days add up to the sessions if and only if every call's timestamp has a date |
| UsageFiles.UndatedCallIsInNoDay | packages/dashboard/src/api/usage.ts:212-231 | one line without timestamp, for which they do not |
| ProjectUsage.ParseTranscript | packages/dashboard/src/api/usage.ts:163-241 | the line loop, updating session and day objects in place, ends with the sessions and days of the lines' calls, in new objects |
| ProjectUsage.UsageCache.GetFileUsage | packages/dashboard/src/api/usage.ts:316-329 | a path and size seen before give what was parsed then; otherwise the file is parsed and kept; a failure gives nothing and keeps nothing |
| ProjectUsage.MergeFile | packages/dashboard/src/api/usage.ts:361-388 | merging updates the objects so far in place, copies new ones, and only reads the file's |
| ProjectUsage.MergeFiles | packages/dashboard/src/api/usage.ts:351-390 | the merged objects are new and hold what the files come to; no object that existed before is changed |
| ProjectUsage.GetProjectFiles | packages/dashboard/src/api/usage.ts:351-390 | reading through the cache and merging leaves every cached result as it was parsed |
| ProjectUsage.CacheIsTransparent | packages/dashboard/src/api/usage.ts:316-329 | as long as a path and a size determine what a file holds, every file counts for what it holds now |
| UsageRollUps.RollUpSessions | packages/dashboard/src/api/usage.ts:396-441 | totals are the sum over the sessions and the sum over the models; weekly is the sum over the recent sessions |
| UsageRollUps.ModelsTellSessions | packages/dashboard/src/api/usage.ts:430-441 | a model is there if and only if a session has it, one without a model counting as unknown, with the sums over those sessions |
| UsageRollUps.WeeklyTellsSessions | packages/dashboard/src/api/usage.ts:421-427 | the weekly totals are the sums over the sessions whose last call is recent |
| UsageRollUps.RollUpMonths | packages/dashboard/src/api/usage.ts:443-467 | the months in order, each grouped from the days in order of date; they add up to the days |
| UsageRollUps.MonthsTellDays | packages/dashboard/src/api/usage.ts:446-465 | a month is there if and only if a day of it is, with the sums over its days |
| Sums.GroupsSumToTotal | packages/dashboard/src/api/usage.ts:430-465 | however items are grouped, the groups add up to the whole |
| Sums.GroupIsTotalOfThose | packages/dashboard/src/api/usage.ts:430-465 | a group is exactly the total of its items, and exists when it has any |
| Sums.ThoseMembers | packages/dashboard/src/api/usage.ts:430-465 | its items are those with its key |
| Sums.ThoseCount | packages/dashboard/src/api/usage.ts:430-465 | and they are as many as there are with that key |
| Sums.SortedGroups | packages/mobile/src/services/usage-data-aggregator.ts:179-217 | groups do not depend on the order of the items |
| UsageAggregator.BucketByWeek | packages/mobile/src/services/usage-data-aggregator.ts:176-221 | strictly increasing Mondays, one bucket for each week that occurs, each with the sum over that week's days, for days in any order |
| UsageAggregator.BucketIsItsWeek | packages/mobile/src/services/usage-data-aggregator.ts:187-217 | a bucket's days are exactly those from its Monday through the Sunday after |
| UsageAggregator.MondayOfWeek | packages/mobile/src/services/usage-data-aggregator.ts:188-195 | the Monday of a date is a Monday at most six days back, the same for exactly that week, and never decreases |
| UsageAggregator.MergeProjects | packages/mobile/src/services/usage-data-aggregator.ts:84-140 | the loops over machines and projects, the sort by cost, the grouping of the tail under its counted name and the percentages compute the list shown |
| UsageAggregator.ShownAddUp | packages/mobile/src/services/usage-data-aggregator.ts:84-140 | whatever the limit, the projects shown add up to what all machines reported, in at most one entry more than the limit |
| UsageAggregator.ShownAreCostliest | packages/mobile/src/services/usage-data-aggregator.ts:114-140 | the projects shown on their own are merged projects; none costs more than one before it, and none not shown more than one that is |
| UsageAggregator.OthersAreOne | packages/mobile/src/services/usage-data-aggregator.ts:117-131 | past the limit, there are as many shown on their own as the limit, and the last entry stands for all others, with their number in its name; otherwise all are shown on their own |
| UsageAggregator.MergedAreReported | packages/mobile/src/services/usage-data-aggregator.ts:84-112 | a project is among those merged if and only if a machine reports it, and once; it has the name first reported for its id and the sums of all that is |
| UsageAggregator.PercentagesAreShares | packages/mobile/src/services/usage-data-aggregator.ts:133-139 | each percentage is the nearest integer to the entry's share of the total cost, and zero when there is no cost |
| UsageAggregator.PercentagesAddUp | packages/mobile/src/services/usage-data-aggregator.ts:104-139 | when there is any cost, the percentages shown add up to a hundred but for half a percent for each entry |
| Numbers.ParseIntInvertsDecimal | packages/daemon/src/security/download-tokens.ts:164 | an integer that is written out, negative or not, is read back |
| DownloadTokens.ParseInvertsCreate | packages/daemon/src/security/download-tokens.ts:75-170 | for every id that tokens are created for and every whole expiry, parsing the token gives back the id, the expiry and the signature |
| TokenExpiries.CreatedIsTokenFor | packages/daemon/src/security/download-tokens.ts:75-86 | a created token is the one whose expiry is written as an integer is |
| TokenExpiries.ReadExactlyWhenDotFree | packages/daemon/src/security/download-tokens.ts:75-170 | however the expiry is written: the token is read as one for its file if and only if that is without a dot and begins as an integer |
| TokenExpiries.FractionIsMisread | packages/daemon/src/security/download-tokens.ts:75-170 | with a fractional expiry, the whole part joins the file id and the fraction becomes the expiry; the token is never good for its file |
| DownloadTokens.CreatedTokenVerdict | packages/daemon/src/security/download-tokens.ts:102-132 | a created token is good for its file exactly until it expires and while it is not remembered |
| DownloadTokens.VerdictOfParts | packages/daemon/src/security/download-tokens.ts:102-170 | on any three parts joined by dots: the format, the signature of the id with the integer read, the expiry and the memory decide, in this order |
| DownloadTokens.PartsOrNoFormat | packages/daemon/src/security/download-tokens.ts:140-170 | and a text that does not come apart so has no valid format |
| DownloadTokens.TokenManager.Create | packages/daemon/src/security/download-tokens.ts:75-86 | refuses exactly the empty ids and those with dots; the expiry is now plus the override or the default |
| DownloadTokens.TokenManager.VerifyToken | packages/daemon/src/security/download-tokens.ts:102-132 | the verdict, with its reason, is the one due when exactly the latest accepted tokens are remembered; only an accepted token joins the history |
| DownloadTokens.TokenManager.MarkUsed | packages/daemon/src/security/download-tokens.ts:222-237 | the loop that drops the oldest half keeps the memory that of the history |
| DownloadTokens.UsedIsSuffix | packages/daemon/src/security/download-tokens.ts:222-237 | after any accepted tokens, the set in insertion order is exactly the latest of them, in a number given by how many there were |
| DownloadTokens.KeptBounds | packages/daemon/src/security/download-tokens.ts:228-229 | that number is at least the smaller of all and max plus one minus half of max, and at most max when there is room for two |
| DownloadTokens.AcceptedAgainOnlyFar | packages/daemon/src/security/download-tokens.ts:124-129 | a text is accepted again only after more other acceptances than are always remembered |
| DownloadTokens.RememberedAreDistinct | packages/daemon/src/security/download-tokens.ts:57-64 | the remembered texts are all different, so that a sequence stands for the Set in insertion order |
| DownloadTokens.AllRememberedExactlyWhile | packages/daemon/src/security/download-tokens.ts:228-229 | every accepted text is remembered if and only if no more were accepted than there is room for, or there is room for less than two |
| TokenGrants.AcceptedAgain | packages/daemon/src/security/download-tokens.ts:75-132 | with any room for two or more, created tokens, each presented while unexpired, of which the first is accepted again |
| TokenGrants.PlainExactlyWhenCreated | packages/daemon/src/security/download-tokens.ts:140-170 | a text that parses is the created text of its file id, expiry and signature if and only if its expiry is written as a created token writes it |
| TokenGrants.AnotherTextIsAccepted | packages/daemon/src/security/download-tokens.ts:102-170 | every created, unexpired token has another text that is accepted beside it for the same grant |
| TokenGrants.LeadingZeroIsAccepted | packages/daemon/src/security/download-tokens.ts:102-170 | for instance with a leading zero in the expiry |
| TokenGrants.OnceExactlyWhenPlain | packages/daemon/src/security/download-tokens.ts:102-132 | whatever is presented, as long as nothing is forgotten: grants are accepted at most once if and only if, of their texts, only those with a plain expiry are let in |
| TokenGrants.SingleUseIsExact | packages/daemon/src/security/download-tokens.ts:102-132 | over all presentations without restriction: if and only if besides there is room for less than two |
| PermissionQueues.PermissionQueue.Enqueue | packages/daemon/src/agents/permission-queue.ts:112-145 | the id gets a pending request with the time it runs out, a timer and a resolver, and a promise not yet resolved; nothing else changes |
| PermissionQueues.PermissionQueue.Respond | packages/daemon/src/agents/permission-queue.ts:152-198 | done exactly when the request is pending: then it takes the status of the decision and who made it, its promise is resolved with the decision, and its timer goes; not found exactly when there is none, otherwise refused with the name of who resolved it, and nothing changes |
| PermissionQueues.PermissionQueue.HandleTimeout | packages/daemon/src/agents/permission-queue.ts:248-269 | a pending request is marked as timed out and its promise resolved with a denial; anything else is left alone |
| PermissionQueues.PermissionQueue.Destroy | packages/daemon/src/agents/permission-queue.ts:232-246 | denies exactly the promises still open and forgets everything |
| PermissionQueues.QueueIsItsRequests | packages/daemon/src/agents/permission-queue.ts:112-269 | in every interleaving, all that the queue holds about an id (request, timer, resolver, resolution) is what that id's own steps make of it |
| PermissionQueues.SameKeys | packages/daemon/src/agents/permission-queue.ts:112-269 | the timers, the resolvers and the pending requests have the same ids, always |
| PermissionQueues.ResolvedAtMostOnce | packages/daemon/src/agents/permission-queue.ts:112-269 | a promise is resolved at most once, and has been exactly when its request is not pending |
| PermissionQueues.ResolutionHasACause | packages/daemon/src/agents/permission-queue.ts:152-269 | a resolution comes from a step that decides so while the request is pending; an allowing one only from a response that allows |
| PermissionQueues.FinalStatusStays | packages/daemon/src/agents/permission-queue.ts:152-269 | once decided, the status and the resolution stay, whatever comes, until the queue is destroyed |
| PermissionQueues.StatusTellsResolution | packages/daemon/src/agents/permission-queue.ts:168-268 | the status of a request tells how its promise was resolved |
| Scrubber.FindItemAtPosition | packages/cli/src/scrubber/scrubberLogic.ts:162-211 | for every timeline sorted by time and every position, an item with the least distance to the clamped target time; ties go to the later time; with no duration, the item at the proportional index |
| Scrubber.TargetIsLinear | packages/cli/src/scrubber/scrubberLogic.ts:169-183 | positions up to 0 stand for the first time and from 1 on for the last, and those between for the times evenly between |
| Scrubber.ProportionalIsNear | packages/cli/src/scrubber/scrubberLogic.ts:172-177 | without a duration, the index nearest to the position's share of the last |
| Scrubber.FirstAtOrAfter | packages/cli/src/scrubber/scrubberLogic.ts:185-198 | the binary search ends at the first item at or after the target |
| Scrubber.NearestIsUnique | packages/cli/src/scrubber/scrubberLogic.ts:200-210 | distance and tie-breaking leave only one item |
| Scrubber.FindNearestTick | packages/cli/src/scrubber/scrubberLogic.ts:122-148 | the nearest tick within the threshold, a significant one if there is one as near, the first of those; none exactly when none is near enough |
| Scrubber.AwayIsAbsolute | packages/cli/src/scrubber/scrubberLogic.ts:130-131 | how far a tick is away does not depend on the side |
| Scrubber.FillBuckets | packages/cli/src/scrubber/scrubberLogic.ts:247-265 | the array ends with each bucket counting exactly its own items, by kind |
| Scrubber.BucketIsItsPart | packages/cli/src/scrubber/scrubberLogic.ts:253-259 | the buckets are equal parts of the duration in order, the last one with its end; without a duration all items are in the first |
| Scrubber.Dominant | packages/cli/src/scrubber/scrubberLogic.ts:272-280 | the kind that occurs most, the first to come up of those, or the notification kind for an empty bucket |
| Scrubber.TallyCounts | packages/cli/src/scrubber/scrubberLogic.ts:262-264 | a bucket counts each kind as often as it occurs |
| Scrubber.KindsAreThose | packages/cli/src/scrubber/scrubberLogic.ts:262-264 | so often is the number of its items with that kind |
| Scrubber.KindsInOrder | packages/cli/src/scrubber/scrubberLogic.ts:262-280 | and the kinds are in the order in which they first occur |
| Scrubber.ComputeMinimap | packages/cli/src/scrubber/scrubberLogic.ts:228-288 | each bucket shows its number of items, its density relative to the fullest, and its dominant kind; without buckets there is nowhere to count |
| Scrubber.EventsAddUp | packages/cli/src/scrubber/scrubberLogic.ts:247-265 | the buckets' counts add up to the number of items |
| Scrubber.BucketsKeepOrder | packages/cli/src/scrubber/scrubberLogic.ts:256-259 | later items are in later buckets |

## Left out

- File systems, HTTP and SSE headers, WebSocket frames, process and PTY spawning: their outcomes are parameters, logs or steps.
- Clocks and timers: the current time is a parameter; `setInterval` and `setTimeout` only decide which steps are possible.
- UTF-8: the ring buffer stays at bytes, because its contents are decoded in two parts at the physical end.
- Floating point: costs, densities and positions are exact reals; displayed rounding and number formats are absent.
- JavaScript numbers: counts and sequences are unbounded integers, exact up to 2^53 in the source.
- Texts: characters are compared by code point, which orders as the source's code units do outside surrogate pairs.
- JSON and object shapes: parsed values arrive as datatypes, and keys that name prototype members of plain objects are ignored.
- EventStore.ReadEvents: the event summaries, and negative limits.
- EventStore: file numbers are taken to equal event sequences, and six-digit file names bound them.
- SsePolling.SseManager: client objects are ids with a table of their fields; heartbeats and the raw `broadcast` are absent.
- Takeover.TakenOverSession.OnExit: fires once; the registry and the event bus, resize and terminate are absent.
- Takeover: that a writer is a connected client is not claimed, because claiming the lock does not check it.
- SyncQueues: writes of the manifest succeed; a failed or torn write is not modelled, and one flush happens at a time. The wait between attempts is an await, not tied to RetryDelay.
- SearchIndexes.SearchIndex.Search: the snippet of a result.
- SearchIndexes: index rebuild from disk and statistics. Timestamps are instants.
- Tokenizing.TokenizeWord: letters are lower-cased within ASCII only, because case folding outside it is not modelled.
- ProjectionCaches.ProjectionCache.Evict: the source's factor 0.8 is four fifths exactly.
- Relays: message encoding, nonces (any values), and key export; a network cannot forge messages.
- UsageFiles: parsing in memory (`parseTranscriptLines`) stops at the first entry of another type, unlike the file parser, and is absent; so are pricing tiers and formatting.
- ProjectUsage.ReadFiles: files are read one after another, where the source reads eight at a time and merges each eight in order; a file does not grow between its size and its content being read. The order of the reported sessions is a parameter.
- UsageAggregator: dates are valid, and day numbers in the order of their texts; the per-day and per-model merges (the same loop as for projects) are absent. A limit is a natural number or none.
- DownloadTokens.TokenManager.Create: the time to live is a whole number of seconds; TokenExpiries says what becomes of others that are written with digits after a dot, and exponents and infinities are absent.
- DownloadTokens: the digest is any function to non-empty texts without dots; the shared manager is absent.
- PermissionQueues: listeners and the events sent to them, and calls back into the queue from a listener. Ids are given from outside.
- Scrubber: tick colours and types, and timelines that are not sorted by time, for which the source gives no promise.
- Session registry, agent state machine, voice input, tray, themes, settings, the mobile offline cache, GitHub clients and CLI commands: thin maps, transition tables or routing, which would only add easy members.
