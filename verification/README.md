# Gateway verification

A Dafny model of the hard parts of an AI API gateway's back end and proofs about every input, every
run or every interleaving of them. `dafny verify dfyconfig.toml` checks the whole project.

**Rate limiter** (`RateLimit*.dfy`). The limiter keeps, per key, a buffer with a dead prefix that is
compacted lazily, cancellable reservations, a recency list and a background cleanup. The classes
`Bucket` and `InMemoryRateLimiter` update arrays, maps and lists in place; each method is proved to
do what a function of `RateLimitModel` does. Those functions are proved to answer every legal run
exactly as counting a naive log of admitted entries would. A run is legal when the clock does not go
back, the durations used for a key do not grow, and reservation IDs are not reused; for every pair
of growing durations a run is given on which limiter and log disagree.

**Model mapping** (`ModelMapping*.dfy`, `Text.dfy`). `Resolver` expands an alias graph depth first
under a work budget with cycle, depth and candidate limits. Success is characterised both ways, by
the expansion tree and by walks in the graph, and the validator's acceptance is proved to carry over
to request time.

**Responses WebSocket session** (`Responses*.dfy`). The session is a state machine: one reader, one
worker per lane, and one step per critical section, channel operation or send. Upstream results,
write failures and the session's end are chosen freely. Over every run: budgets balance
(`ResponsesAccounting`), closings follow acceptances (`ResponsesDelivery`), every turn lives one of
three stories that decide its closing (`ResponsesTurns`), and stored snapshots are whole
conversations (`ResponsesReplay`). `History`, `Writer`, `Session` and `Registry` are the
objects with their fields updated in place. The event stream writer is chunk-invariant
(`ResponsesFraming`, `ResponsesStream`, `ResponsesPayload`, `ResponsesEvents`). Connections and shutdown are a second
state machine (`ResponsesShutdown`).

**Relay failover** (`RelayFailover.dfy`, `RelayLoop.dfy`). The nested route and attempt loops as a
method over unconstrained choices for everything upstreams, hooks, billing and the selector decide.

**Reconcilers**. Keys of a multi-key channel (`MultiKeys.dfy`), upstream model lists
(`ModelNames.dfy`, `UpstreamModels.dfy`), official prices (`OfficialPrices.dfy`); `DelimitedText.dfy`,
`Totals.dfy` and `Options.dfy` are shared.

Where a promise does not hold for all inputs, the model follows the code, a lemma names an input
that fails and another the condition:

- The limiter agrees with the log on every run whose durations for a key do not grow
  (`LimiterRefinesLog`), and for any two that grow some run is answered differently
  (`GrowingDurationDisagrees`).
- How a stream is split matters to the buffer limit and to nothing else (`ChunkInvariance`,
  `LimitDependsOnSplit`); when the limit is tripped is said by an if and only if (`TripsIff`).
- Deleting keys preserves the view of the others if and only if the text to write survives being
  read again (`ViewPreservedIff`, `ReadsBackIff`). It does not for keys printed over several lines
  (`PrettyKeySplits`), nor when no key is left: an empty text is not written, and all deleted keys
  come back enabled (`AllDisabledComeBack`).
- Applying all detected model changes settles if and only if no added name holds a comma and no
  ignore pattern still needed is itself added (`ReconcilesIff`, `AddedPatternReopens`); plain names
  suffice (`PlainNamesReconcile`).
- Price selection stays near the cheapest because providers are visited in sorted order
  (`PickNearCheapest`); out of order it drifts (`DriftsOutOfOrder`).

Parameters stand for what lies outside the model: instants read from the clock, upstream bytes and
answers, send results, JSON and field parsing, regular expressions, the rounding of ratios, and the
configured limits.

## Model

| member | source | states |
|---|---|---|
| RateLimitRefinement.LimiterRefinesLog | common/rate-limit.go:31-192 | every legal run of requests, reservations, cancellations, retry queries and cleanups is answered as counting the uncancelled, young enough log entries would |
| RateLimitRefinement.StepRefines | common/rate-limit.go:31-192 | one operation gives the log's answer and keeps store, recency list and log related |
| RateLimitOperations.RequestExact | common/rate-limit.go:105-148 | a request is admitted exactly when the entries younger than the duration plus its own weight, one if not positive, stay within the limit, and then adds exactly that many entries of this second; it makes the key the most recent with this duration as window, and touches no other; without a limit or with a weight above it nothing changes |
| RateLimitOperations.CancelGivesBack | common/rate-limit.go:152-173 | reserving under a new ID and cancelling it leaves the key with its young entries, and no bucket when there are none |
| RateLimitOperations.CancelNothing | common/rate-limit.go:152-173 | a blank ID, an unknown key or an ID no entry carries cancels nothing |
| RateLimitOperations.RetryAnswer | common/rate-limit.go:175-192 | the delay is the time the oldest young entry has left, one second when there is none, and then the bucket is dropped |
| RateLimitRefinement.CleanupExact | common/rate-limit.go:76-102 | cleanup with its early return removes exactly the buckets that are idle too long and hold no live entry, and keeps the list a recency-ordered bijection with the store |
| RateLimitRefinement.CleanupLru | common/rate-limit.go:82-102 | cleaning up from any position keeps the list duplicate-free, equal to the stored keys and ordered by last activity |
| RateLimitGuarantees.ReachedSound | common/rate-limit.go:120-192 | after any legal run the list is a recency-ordered bijection with the store, no bucket is empty and entries are in order of time |
| RateLimitGuarantees.CleanupExactAfterRun | common/rate-limit.go:76-96 | after any legal run cleanup removes exactly the stale buckets |
| RateLimitGuarantees.WindowNeverExceeded | common/rate-limit.go:120-148 | over any legal run the uncancelled weight admitted for a key in any window of the duration is at most the limit |
| RateLimitGuarantees.RetryAfterExact | common/rate-limit.go:175-192 | the returned delay is the first second at which a weight-1 request is admitted if and only if the bucket is full and freeing its oldest second makes room |
| RateLimitGuarantees.RetryAfterExactWhenFull | common/rate-limit.go:175-192 | on a bucket holding exactly the limit the delay is exact |
| RateLimitGuarantees.RetryAfterExactAfterRun | common/rate-limit.go:175-192 | after any legal run the delay for a key with live entries is exact under the same condition, both ways |
| RateLimitGuarantees.GrowingDurationDisagrees | common/rate-limit.go:31-40 | for any growing pair of durations a run exists on which the limiter answers differently from the log |
| RateLimitBucket.Bucket.Expire | common/rate-limit.go:31-40 | in place, drops exactly the expired prefix of the contents |
| RateLimitBucket.Bucket.Append | common/rate-limit.go:42-53 | compaction and growth leave the contents plus the appended copies |
| RateLimitBucket.Bucket.Remove | common/rate-limit.go:162-171 | closes the gap of the first entry with the ID, nothing else |
| RateLimiter.InMemoryRateLimiter.ReserveN | common/rate-limit.go:120-148 | the heap update and answer are those of the model's reservation |
| RateLimiter.InMemoryRateLimiter.Cancel | common/rate-limit.go:152-173 | removes one reservation and an emptied bucket, ignores a blank ID or unknown key |
| RateLimiter.InMemoryRateLimiter.RetryAfter | common/rate-limit.go:175-192 | new state and delay are the model's, emptied buckets are removed |
| RateLimiter.InMemoryRateLimiter.DeleteExpiredEntries | common/rate-limit.go:76-96 | the backward sweep with early return is the model's cleanup |
| RateLimiter.InMemoryRateLimiter.RemoveBucket | common/rate-limit.go:99-102 | unlinks the key from the store and the list together |
| ModelMappingResolver.Resolver.Expand | common/model_mapping.go:344-375 | passes if and only if the subtree has no cycle or overlong path, fits the remaining work and the candidate limit; on success exactly its size is spent and its leaves are appended without duplicates; a cycle error comes with a walk that returns to a name it passed, a depth error with a walk longer than the room, the others with the limit exceeded |
| ModelMappingResolver.Resolver.Add | common/model_mapping.go:332-342 | appends an unseen candidate within the limit |
| ModelMapping.ResolveLegacy | common/model_mapping.go:321-380 | succeeds if and only if the source is resolvable, returns the first-occurrence dedup of the depth-first leaves and spends exactly the tree size |
| ModelMapping.ResolutionMeaning | common/model_mapping.go:343-380 | after success no walk from the source is longer than 32 hops and the candidates are, once each, the final names walks end at |
| ModelMapping.CycleRejects | common/model_mapping.go:352-354 | a reachable non-self cycle forces an error under any budget |
| ModelMappingGraph.FineIffNoLongWalk | common/model_mapping.go:349-354 | cycle and depth check together accept exactly the sources without an overlong walk |
| ModelMappingGraph.LeavesAreReached | common/model_mapping.go:355-372 | leaves of an accepted source are exactly the unmapped or self-mapped names some walk ends at |
| ModelMappingGraph.ExpansionLaws | common/model_mapping.go:355-372 | leaves and nodes of a name are those of its targets in the listed order, a self-mapping and an unmapped name counting one each |
| ModelMappingGraph.DedupKeepsOrder | common/model_mapping.go:332-342 | of two candidates the one found first comes first |
| ModelMapping.MoreWorkStillResolves | common/model_mapping.go:316-319 | success under a smaller budget is success under a larger one |
| ModelMapping.SelectRules | common/model_mapping.go:271-290 | fails if and only if the source has more than 128 distinct targets; otherwise lists each target once, under its highest-priority and on ties earliest rule, in non-increasing priority |
| ModelMapping.FindCandidates | common/model_mapping.go:255-291 | succeeds exactly when the source answers; legacy candidates are the resolved models one for one, rule candidates the best enabled rule of each target, highest priority first |
| ModelMapping.ChosenAnswers | common/model_mapping.go:271-290 | the rule-mode candidates carry target, ID and priority of enabled rules of the source, each model once by its best and earliest rule, priorities not increasing, every enabled target present |
| ModelMapping.AnswersExactly | common/model_mapping.go:255-291 | a source is answered exactly when it has at most 128 distinct enabled targets, or is unmapped, or its expansion stays within 32 hops, 8192 nodes and 128 leaves |
| ModelMapping.ValidateLegacy | common/model_mapping.go:398-416 | accepts exactly the configurations whose sources all resolve and together fit the shared budget; never spends more than 65536 |
| ModelMapping.Validate | common/model_mapping.go:382-417 | accepts a parsed configuration if and only if it is acceptable in its mode |
| ModelMapping.AcceptedAlwaysAnswers | common/model_mapping.go:255-291 | once accepted, candidates are found for every source string without error |
| ModelMapping.RulesAcceptableIff | common/model_mapping.go:398-405 | rule configurations are accepted exactly when every source string is answered |
| ModelMapping.LegacyAcceptableIff | common/model_mapping.go:398-416 | legacy ones exactly when every source string is answered and the whole expansion fits the shared budget |
| ResponsesAccounting.SessionAccounts | controller/responses_websocket.go:259-361 | after any interleaving the pending and byte counters equal the lanes' totals within 32 and 16 MiB, and each lane's turns are its unreleased turn followed by its queue |
| ResponsesAccounting.EnqueueNeverBlocks | controller/responses_websocket.go:272-283 | the channel send made under the lock finds a free slot |
| ResponsesAccounting.AcceptsExactly | controller/responses_websocket.go:259-271 | a create is turned away exactly when its lane would be the 33rd, 32 turns are unreleased or its body does not fit the 16 MiB |
| ResponsesAccounting.ReleasePopsOwnTurn | controller/responses_websocket.go:325-336 | a release pops the very turn it belongs to and gives back no more than is held |
| ResponsesSessionObject.Session.Enqueue | controller/responses_websocket.go:259-284 | admits or refuses with the right limit, moves every counter, and keeps the accounts |
| ResponsesSessionObject.Session.CancelTurn | controller/responses_websocket.go:286-303 | flags the turn its worker has not released or, if it holds none, the first in the queue, exactly when there is one and it is meant; keeps the accounts |
| ResponsesTurns.SessionHonest | controller/responses_websocket.go:286-383 | after any run: a cancel flag was read as set exactly when a cancel had been accepted for the turn, none had when it began, one had when it was closed as cancelled; a denied turn could not be prepared or did not fit the budget; a prepared one goes on with what preparing gave |
| ResponsesSessionObject.Session.ChargeTurn | controller/responses_websocket.go:352-362 | charges the replayed bytes unless they exceed the budget, and keeps the accounts |
| ResponsesSessionObject.Session.ReleaseTurn | controller/responses_websocket.go:325-336 | returns slot and bytes, drops exactly the worker's own turn, and keeps the accounts |
| ResponsesDelivery.SessionDelivers | controller/responses_websocket.go:305-386 | the delivery invariant holds after any run |
| ResponsesDelivery.ClosingsFollowAcceptance | controller/responses_websocket.go:305-386 | per lane, closings are a prefix of acceptances in order; on a living session only the turn in hand and the queue lack one; nothing about a turn follows its closing, which comes after its release and, for a terminal event, after its history step |
| ResponsesTurns.ClosedTurnStory | controller/responses_websocket.go:320-386 | a turn whose closing was received was cancelled before it began, denied after it began, or prepared, answered, flag read and settled, then released and closed once, by the closing its story calls for |
| ResponsesTurns.SettledThenClosed | controller/responses_websocket_writer.go:208-223 | after any run a settled turn is closed by its terminal event exactly when the relay succeeded and the stream was clean and whole, otherwise as cancelled exactly when the flag read was set |
| ResponsesTurns.SessionTells | controller/responses_websocket.go:305-386 | after any run every turn, queued, in hand or through, is at its place in one of the three stories |
| ResponsesDelivery.TerminalAfterStored | controller/responses_websocket.go:375-385 | after any run every terminal event was sent after its turn was released, and that after a history step of a whole turn which stored the turn's own ledger node exactly when it was to be kept and the history took it |
| ResponsesDelivery.StoreTruthful | controller/responses_websocket.go:381-383 | the history step puts the snapshot of input and output under the response ID, and says so, exactly when the turn is kept and storable |
| ResponsesReplay.SessionReplays | controller/responses_websocket.go:346-383 | after any run the history is well kept and every snapshot is the whole conversation along its parent chain, across lanes and after eviction of ancestors |
| ResponsesReplay.SnapshotIsConversation | controller/responses_websocket_history.go:115-182 | with response IDs not reused each snapshot is what walking previous-response IDs back finds |
| ResponsesReplay.PrepareContinues | controller/responses_websocket_history.go:115-151 | a replayable prepared input is its parent's conversation followed by the request's own items |
| ResponsesReplay.KnownParentReplayed | controller/responses_websocket_history.go:130-150 | after any run a request that names a response in the history is sent the whole conversation that stored it and its own items, and stays replayable; with response IDs not reused that is what walking the IDs back finds |
| ResponsesReplay.PrepareOtherwise | controller/responses_websocket_history.go:115-151 | without a parent the own items, replayable; an unknown parent is refused exactly when storing is forbidden, else the own items, not replayable; unparsed or too long is refused |
| ResponsesReplay.StoreExact | controller/responses_websocket.go:381-383 | a successful clean replayable turn with a new ID and something to keep within 16 MiB is in the history, newest; any other leaves the history as it is |
| ResponsesHistory.History.Remember | controller/responses_websocket_history.go:153-182 | in place, stores exactly the worthwhile new snapshots and keeps the bookkeeping invariant |
| ResponsesHistory.History.Evict | controller/responses_websocket_history.go:173-178 | drops the shortest oldest prefix that makes room, never looking into an empty order |
| ResponsesHistory.RememberedKept | controller/responses_websocket_history.go:153-182 | order stays duplicate-free and equal to the stored keys, bytes the sum of sizes within 16 MiB, at most 64 entries |
| ResponsesHistory.NeededMakesRoom | controller/responses_websocket_history.go:162-178 | evicting as many as needed always makes room for a snapshot within the byte limit |
| ResponsesHistory.RememberExact | controller/responses_websocket_history.go:162-181 | storing keeps the newest snapshots in order with the new one behind them, and one older would have been a 65th or exceeded 16 MiB |
| ResponsesFraming.CutExtends | controller/responses_websocket_writer.go:80-88 | the end of the first frame does not change when more bytes arrive, with both delimiter forms mixed |
| ResponsesFraming.FramesPartition | controller/responses_websocket_writer.go:79-88 | frames and leftover are the stream, each frame ends at its first blank line, the leftover has none |
| ResponsesPayload.CutExact | controller/responses_websocket_writer.go:80-88 | the first frame ends right after the first pair of line feeds or of carriage-return line-feed pairs, and there is none without one |
| ResponsesPayload.SplitJoins | controller/responses_websocket_writer.go:90 | the lines of a frame joined again are the frame, and none holds a line feed |
| ResponsesPayload.JoinSplits | controller/responses_websocket_writer.go:90 | lines without line feeds, joined and split, are themselves |
| ResponsesPayload.UnwrapPair | controller/responses_websocket_writer.go:90 | every carriage-return line-feed pair becomes a line feed, wherever it stands |
| ResponsesPayload.ValuesGather | controller/responses_websocket_writer.go:89-94 | the values are those of exactly the lines with a data field, in order |
| ResponsesPayload.PayloadExact | controller/responses_websocket_writer.go:89-101 | whichever way its lines end, a frame of lines without carriage returns and line feeds, an empty one having no field, carries the values of its data fields joined by line feeds, unless there are none or they spell the end marker |
| ResponsesPayload.OneLinePayload | controller/responses_websocket_writer.go:88-101 | a frame of one data line carries its value, with either line ending |
| ResponsesStream.WritesFeedFrames | controller/responses_websocket_writer.go:62-108 | any sequence of writes within the buffer limit equals cutting the whole stream at once and handling frames up to the first error |
| ResponsesStream.ChunkInvariance | controller/responses_websocket_writer.go:62-108 | two splits of one stream give the same events, first error and leftover |
| ResponsesStream.ShortNeverTrips | controller/responses_websocket_writer.go:74-77 | a stream within the limit never trips it, however split |
| ResponsesStream.TripsIff | controller/responses_websocket_writer.go:74-77 | the buffer limit is tripped if and only if, before some chunk, no frame of the stream so far fails and the unfinished frame plus the chunk exceed it |
| ResponsesEvents.LimitDependsOnSplit | controller/responses_websocket_writer.go:74-77 | two frames too long together end in a protocol error when written at once and leave the writer untouched by errors when written one by one |
| ResponsesEvents.TurnForwards | controller/responses_websocket_writer.go:110-173 | a turn's events are forwarded in order and completely up to the first error, all for one response, only the one held back is terminal, and the collected output is exactly theirs |
| ResponsesEvents.FeedForwards | controller/responses_websocket_writer.go:110-173 | what was sent plus the event held back is the payload sequence, or a prefix of it after an error |
| ResponsesEvents.HandleCollects | controller/responses_websocket_writer.go:151-171 | unless given up as too large, the collected text and items are those of the forwarded events within the limit |
| ResponsesEvents.HandleExact | controller/responses_websocket_writer.go:110-173 | an event passes exactly when it decodes, names a kind that is no failure, precedes any terminal one and fits the response; it is then held back when terminal, else sent; each error is told |
| ResponsesEvents.GivesUpExactly | controller/responses_websocket_writer.go:151-171 | the output is given up exactly when text or items would exceed 16 MiB |
| ResponsesEvents.BodyCollected | controller/responses_websocket_writer.go:67-73 | a plain response is collected whole however split, and fails exactly above 1 MiB |
| ResponsesWriter.Writer.Write | controller/responses_websocket_writer.go:62-108 | the buffer loop, the plain-body branch, the sticky error and the returned count are those of the model's write |
| ResponsesWriter.Writer.EventData | controller/responses_websocket_writer.go:110-173 | one event updates the fields and fails as the model's event step does |
| ResponsesWriter.Writer.CollectValues | controller/responses_websocket_writer.go:89-94 | gathers the data fields of all lines in order |
| ResponsesRegistry.Registry.Reserve | controller/responses_websocket.go:36-46 | succeeds exactly when not stopping and the sum of counts and the token's count are below their limits; the total stays the sum of positive token counts within both limits |
| ResponsesRegistry.Registry.Release | controller/responses_websocket.go:70-78 | giving back a held place lowers the sum by one and keeps the total equal to it, counts positive and limits met |
| ResponsesRegistry.ReserveAndReleaseInvert | controller/responses_websocket.go:36-78 | a release undoes a reservation, and a place given back can be taken again, leaving the registry as it was |
| ResponsesShutdown.RegistryKeeps | controller/responses_websocket.go:36-78 | in every interleaving the total is the number of held reservations and the sum of token counts, within both limits; the registry lists exactly the live sessions |
| ResponsesShutdown.ShutdownComplete | controller/responses_websocket.go:49-68 | once a shutdown call has returned nil no session has a worker or is registered, and none ever will in any continuation |
| ResponsesShutdown.WaitingMeansTold | controller/responses_websocket.go:57-66 | in every run a shutdown call that has begun to wait has cancelled every session still registered |
| ResponsesShutdown.AdmissionExact | controller/responses_websocket.go:36-46 | a connection gets a place exactly when both limits, at least one each, have room and nothing is stopping; after its upgrade (lines 167-173) it is registered exactly unless stopping |
| ResponsesShutdown.ConnStepSound | controller/responses_websocket.go:167-197 | workers exist only between registration and the final wait, and done means both are over |
| RelayFailover.Failover.Begin | relay/common/channel_failover.go:54-63 | opens a channel exactly when the budget allows and it was never attempted |
| RelayFailover.Failover.BeginMappedCandidate | relay/common/channel_failover.go:67-77 | stays on a channel exactly when it is the last one and has not served the target |
| RelayFailover.VisitedOnce | relay/common/channel_failover.go:54-77 | a channel once left is never returned to |
| RelayLoop.Relay.Run | controller/relay.go:456-836 | for every behaviour of the surroundings the loops end after at most six dispatches, none of which follows anything given to the client or belongs to an attempt that began with the client already gone; routes in order, channels fresh except for an unserved mapped target on the last one, each route once when pinned; and they stop only on success, with the client gone, with no channel, preparation or model to be had, on a verdict, budget or exposure that stands against another attempt, and with no further route to try |
| RelayLoop.Relay.TryOnce | controller/relay.go:508-824 | one pass keeps this, and goes on only while nothing was given to the client, spending budget or the one sanitized fallback |
| RelayLoop.Relay.NextMappedCandidate | controller/relay.go:1184-1233 | agrees to another target only with nothing committed or written, the client present and budget left, and then moves the cursor of this channel by exactly one, onto a candidate; otherwise the cursor stays |
| RelayLoop.Relay.DecideRetry | controller/relay.go:759-808 | another channel exactly when the verdict wants it and neither client, exposure, budget, pinning nor a broken stream stands against it |
| MultiKeys.Channel.DeleteKey | controller/channel.go:2006-2078 | succeeds exactly when the index is in range and some key would remain, and then stores the re-indexed remainder as saving does; otherwise changes nothing |
| MultiKeys.Channel.DeleteDisabledKeys | controller/channel.go:2086-2143 | counts exactly the rows that do not survive, and stores the remainder as saving does if there are any |
| MultiKeys.ReindexedRows | controller/channel.go:2031-2058 | re-indexing keeps the row of every surviving key, in order |
| MultiKeys.SurvivingExact | controller/channel.go:2031-2058 | the surviving rows are those of the view at the positions not deleted, in order, for one key and for all automatically disabled ones (lines 2097-2122) |
| MultiKeys.RowShows | controller/channel.go:1753-1797 | a row shows the key, its recorded status or enabled, and the recorded time and reason of a disabled key |
| MultiKeys.ViewPreservedIff | controller/channel.go:1752-1797 | after a deletion the status view shows exactly the surviving rows if and only if the text to write is not taken for an array and holds the remaining keys as its lines, or is empty with nothing dropped |
| MultiKeys.AllDisabledComeBack | model/channel.go:702-706 | when every key is automatically disabled the deletion leaves the key text and all keys come back, enabled |
| MultiKeys.ReadsBackIff | model/channel.go:196-218 | keys joined by line breaks are read back if and only if there are none, or the text is no JSON array, no key holds a line break and neither the first nor the last is empty |
| MultiKeys.PrettyKeySplits | controller/channel.go:2066-2067 | deleting from an array of two objects printed over lines leaves two broken keys where one should remain |
| MultiKeys.FilteredSound | controller/channel.go:1799-1809 | the filtered list holds rows of the requested status only, each with its position, in order |
| MultiKeys.FilteredComplete | controller/channel.go:1799-1809 | every row of the requested status is in the filtered list |
| MultiKeys.PagesCover | controller/channel.go:1810-1832 | the pages of a list, for any requested page size, concatenate to it |
| MultiKeys.PageExact | controller/channel.go:1739-1832 | a page holds at most the page size, 100 by default, and numbers outside the range mean the nearest page |
| DelimitedText.StoredIffStorable | model/channel.go:392-404 | a list joined, trimmed and split is itself if and only if no part holds the separator and the outer parts are not empty |
| ModelNames.ApplySelectedNames | controller/channel_upstream_update.go:143-148 | the next models are those held or added, except those removed and not added, clean and distinct |
| ModelNames.MergeNames | controller/channel_upstream_update.go:105-119 | merging keeps the base list as a prefix and yields the union, clean and distinct |
| ModelNames.MergeLists | controller/channel_upstream_update.go:105-119 | the loop computes the merge |
| ModelNames.NormalizeNames | controller/channel_upstream_update.go:98-103 | normalizing keeps exactly the trimmed names that are not blank |
| UpstreamModels.DetectNames | controller/channel_upstream_update.go:177-236 | the pending lists are clean and hold exactly the uncovered, unignored upstream models and the absent local models that are no redirect source |
| UpstreamModels.DetectExact | controller/channel_upstream_update.go:177-236 | a model is to be added exactly when upstream has it, the channel does not, no redirect leads to it and no ignore entry matches; to be removed exactly when the channel has it, upstream does not and it is no redirect source |
| UpstreamModels.Channel.ApplyUpdates | controller/channel_upstream_update.go:813-861 | in place, applies the pending part of a selection and keeps the rest pending |
| UpstreamModels.SelectionSound | controller/channel_upstream_update.go:828-846 | whatever is selected, only pending models are added or removed and no added model stays on the ignore list |
| UpstreamModels.SelectionExact | controller/channel_upstream_update.go:813-849 | what each list holds after a selection: only pending models are added, ignored or removed, and the rest stays pending |
| UpstreamModels.RedirectSourcesStay | controller/channel_upstream_update.go:226-234 | no selection removes a redirect source |
| UpstreamModels.ReconcilesIff | controller/channel_upstream_update.go:177-236 | applying all that was detected leaves nothing to detect if and only if no added name holds a comma and every ignored model is still ignored by an entry not being added |
| UpstreamModels.AddedPatternReopens | controller/channel_upstream_update.go:842-845 | detecting, applying and detecting again on a channel whose upstream offers a model named like its ignore pattern finds the model the pattern hid |
| UpstreamModels.PlainNamesReconcile | controller/channel_upstream_update.go:177-236 | settling is certain when no detected name holds a comma or is an ignore pattern |
| OfficialPrices.PickNearCheapest | controller/ratio_sync.go:941-953 | visiting providers in order, the pick is within 1e-9 of the cheapest non-zero offer and zero only if all are |
| OfficialPrices.DriftsOutOfOrder | controller/ratio_sync.go:88-93 | in another order the tie-break leaves that tolerance |
| OfficialPrices.SelectPrices | controller/ratio_sync.go:982-1011 | the nested loops hold, for every model with an offer and no other, a pick near its cheapest offer |
| OfficialPrices.BuildIff | controller/ratio_sync.go:899-939 | a cost is a candidate if and only if its input is valid and its output, if given, is valid and a multiple of the input, so that a ratio exists; the candidate holds the feed's numbers |
| OfficialPrices.ReplaceOfficial | controller/official_price_sync.go:122-151 | the loops compute the merge and count stale, new and differing values |
| OfficialPrices.ValuesExact | controller/official_price_sync.go:120-130 | the feed gives a value exactly for official models with a finite non-negative number |
| OfficialPrices.ChangesCounted | controller/official_price_sync.go:132-149 | the count is of official models that lose their value plus values new or moved by 1e-9 or more |
| OfficialPrices.MergeExact | controller/official_price_sync.go:132-149 | custom models keep their values, official ones have exactly the feed's |
| OfficialPrices.MergeRepeats | controller/official_price_sync.go:119-151 | merging again changes nothing and reports no change |
| OfficialPrices.NoChangeIff | controller/official_price_sync.go:134-148 | no change is reported if and only if the models stay the same and no value moves by the tolerance |

## Left out

- JSON text: requests, events, mappings, keys and prices come already parsed; `sjson` edits of the stream ID and their errors are not modelled.
- ResponsesWriter.Writer.Write: the data field parser is a parameter, so trimming inside a field is not modelled.
- ResponsesSession: interleaved workers are a state machine over values; the relay call inside a turn is one free choice of outcome, and every accepted cancel being acknowledged as cancelled is not claimed.
- ResponsesDelivery.ClosingsFollowAcceptance: does not claim that a turn in hand is eventually closed, since that depends on the upstream.
- `finish` bodies, error codes and messages, and the snapshot output's choice between terminal output, items and text: single-branch formatting.
- ResponsesShutdown.RegistryKeeps: the configured limits are constant during a run.
- RelayLoop.Relay.Run: hooks, billing, capability observation, selection and error classification are free choices and are taken not to write to the client; only serving an attempt does.
- ModelMapping.Validate: byte limit, unique-key decoding and parsing of the raw text come before the modelled part; sources are a set, as acceptance does not depend on their sorted order.
- RateLimiter: the ticker goroutine and the mutex; each call is one step and the clock reading a parameter. The Redis limiter is a separate implementation.
- RateLimitRefinement.LimiterRefinesLog: durations of a key that grow are excluded, because the limiter then forgets entries the log still counts.
- OfficialPrices: floating point rounding is not modelled, prices are real numbers and rounding of ratios is a parameter; providers are named by their sorted position.
- MultiKeys: enabling and disabling keys, which set single status entries, and the counters beside the list are not modelled; key previews are replaced by the keys. JSON decoding is a parameter of which only the length of an array's text is assumed.
- UpstreamModels: fetching, database updates and notification; the regular expression engine is a parameter.
- Disk caches, OAuth, payment, option validation, URL filtering, logging and other handlers.
