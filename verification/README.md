# Verification

A Dafny model of the system's stateful core with machine-checked proofs. `dafny verify dfyconfig.toml`
checks everything. Each group of files follows one part of the program.

**Live feed.** `SendDb` and `SendTx` model the send transaction: counter rows bumped under row locks, drafts
bound in a loop, any number of transactions interleaved with aborts anywhere. `Fanout` models the event stream:
handlers that publish after the commit, connections that subscribe, replay and follow; `Reconnect` follows one client
across two connections. `FeedLog`, `FeedReducer` and `FeedProtocol` model the two cursor reads and the client reducer,
and put the server log, an adversarial network (loss, duplication, reordering, stale repair replies) and the client into
one transition system; `FeedSession` adds the time before the first page, `FeedRounds` repair rounds inside any run, and
`FeedNames` the two renditions of a sender's name. `SendDb.AllocationGivesValidLog` and `SendDb.LiveEventIsRendition` tie
the two ends together.

**Indexing worker.** `Chunks` holds the chunk assembly across the Go/Python boundary and the greedy
segmentation it amounts to; `IndexStore` and `IndexWorker` the three tables, their atomic statements and the worker
with a failure at any point; `ChunkTable`, `IndexRuns`, `IndexSeed` and `IndexOvertaken` what holds over whole runs.

**Golden release.** `UnionFind`, `Components` and `SplitLeak` model the duplicate-edge components and the leak check;
`SplitSearch` and `SplitAssign` the branch-and-bound split; `AntiLeak` the gate's accounting; `Release`, `Publish`,
`Publisher`, `PublishRuns` and `Promote` the versioned directories, the CURRENT pointer, the publication steps with
crashes and clean-up, readers beside them, and the promotion.

**Near duplicates and retrieval.** `NearDup` reuses the union-find for the image clusters; `Bm25` relates the postings
index to direct scoring.

`Options` and `IntCollections` hold stock definitions. Methods mirror the source's loops and in-place updates and are proved
against specification functions; the theorems are about those functions and about whole runs.

Results where the code does less than one might expect, each with its exact condition:

- A live event shows the caller id as sender name while a stored row shows the display name, so which name a client ends up
  with can depend on the order of arrival (`FeedNames.NamesDecide`, `FeedNames.TwoOutcomes`).
- A first page that arrives after newer live messages were rendered moves the frontier back
  (`FeedProtocol.InitKeepsProgressIff`, `FeedSession.InitCanGoBack`), and an empty first page over a log that does not start
  at ordinal zero never advances (`FeedProtocol.AdvancesIff`, `FeedProtocol.EmptyPageStartsBelow`).
- A client that reconnects after out-of-order writes can lose an event on the stream for good; only the gap repair brings it
  back (`Reconnect.ReconnectMissesNothingIff`, `Reconnect.ReconnectCanLose`).
- A retried message that was overtaken by a later one of its channel is marked done but is in no chunk
  (`IndexRuns.IndexedIffNotOvertaken`, `IndexOvertaken.OvertakenIsLost`).
- An exception between the directory rename and the note that it happened leaves a complete directory that no pointer
  names, and a clean-up after the swap that cannot read CURRENT removes the directory it names
  (`Publisher.Files.Publish`, `Publisher.MisreadDangles`).
- A promotion verifies the gold rows but not the judgment file, so promoting a directory by id can publish a release
  that does not resolve (`Promote.PromotedResolvesIff`, `Promote.UnvouchedPromotion`); and it reads artifacts under their own
  names whatever CURRENT lists (`Promote.PromotionRoundTripIff`).

## Model

| member | source | states |
|---|---|---|
| FeedLog.FeedForIsRun | internal/repository/persistence.go:310-325 | from any cursor, a forward page is the contiguous run of ordinals from the first one after it, cut off by the page size or the end of the log and by nothing else |
| FeedLog.ReverseInPlace | internal/repository/persistence.go:384-386 | the two-index swap loop leaves the array reversed |
| FeedLog.FeedBefore | internal/repository/persistence.go:348-388 | the query's newest-first page, reversed in place, is the ascending page before the cursor |
| FeedLog.HistoryPageIsRun | internal/repository/persistence.go:348-388 | a history page is a run of rows that ends right below the cursor or at the end of the log |
| FeedLog.HistoryPageIsNewest | internal/repository/persistence.go:348-388 | a row below the cursor that the page leaves out is older than every row of a full page |
| FeedReducer.Frontier | frontend/src/state/feedReducer.ts:42-47 | the drain stops at the least ordinal from n on that is not a key |
| FeedReducer.FrontierUnique | frontend/src/state/feedReducer.ts:42-47 | nothing else is that least missing ordinal |
| FeedReducer.Drain | frontend/src/state/feedReducer.ts:90-96 | the drain loop pushes exactly the contiguous buffered run, in order, and removes its keys |
| FeedReducer.PurgeBelow | frontend/src/state/feedReducer.ts:98-103 | only keys from the frontier on survive |
| FeedReducer.Initialize | frontend/src/state/feedReducer.ts:29-62 | the INIT case: sorted page, buffered rows of the page dropped, the contiguous run drained |
| FeedReducer.Receive | frontend/src/state/feedReducer.ts:64-124 | the three cases of an event: below, at and above the frontier |
| FeedReducer.Prepend | frontend/src/state/feedReducer.ts:126-135 | history merged by id and sorted by ordinal |
| FeedReducer.MergePrefix | frontend/src/state/feedReducer.ts:162-176 | the repair loop merges the contiguous prefix of candidates and skips ids that are already rendered |
| FeedReducer.RetainAhead | frontend/src/state/feedReducer.ts:178-187 | fetched rows above the frontier go to the buffer unless an event is already there |
| FeedReducer.Repair | frontend/src/state/feedReducer.ts:137-203 | the whole repair case |
| FeedReducer.Dispatch | frontend/src/state/feedReducer.ts:27-213 | every action of the reducer |
| FeedProtocol.ReceiveStep | frontend/src/state/feedReducer.ts:64-124 | one genuine event keeps the invariant; the frontier is the least ordinal not yet received or fetched |
| FeedProtocol.RepairStep | frontend/src/state/feedReducer.ts:137-203 | one reply, stale or not, keeps the invariant and moves the frontier as if its rows had been received |
| FeedProtocol.HistoryStep | frontend/src/state/feedReducer.ts:126-135 | an older page never touches the frontier or the buffer |
| FeedProtocol.StepSafe | frontend/src/state/feedReducer.ts:27-203 | every enabled step of the transition system keeps the invariant |
| FeedProtocol.RunSafe | frontend/src/state/useFeed.ts:47-82 | over every run of commits, lost, repeated and reordered events, stale repair replies and older pages: the invariant holds, the frontier never moves back, and the client state is the closed form of what the run offered |
| FeedProtocol.RenderedFaithfully | frontend/src/state/feedReducer.ts:27-203 | rendered ordinals strictly increase, no id appears twice, every entry is the log's |
| FeedProtocol.Confluence | frontend/src/state/feedReducer.ts:64-203 | two runs that offered the same ordinals agree on frontier, buffer keys and rendered list, whatever the order and the multiplicity |
| FeedProtocol.InitEstablishes | frontend/src/state/useFeed.ts:22-45 | the first page establishes the invariant from any state with genuine buffered events |
| FeedProtocol.InitKeepsProgressIff | frontend/src/state/feedReducer.ts:29-62 | a late first page keeps the frontier's progress exactly when it reaches the frontier |
| FeedSession.SessionSafe | frontend/src/state/useFeed.ts:22-82 | a whole session, with events and repairs at work before the first page: the invariant holds all along and from the page on the frontier never moves back |
| FeedSession.InitCanGoBack | frontend/src/state/feedReducer.ts:29-62 | stored rows 0..N, live message N+1 committed, delivered and rendered by an early repair, then the first page as read before the commit: the frontier is back at N+1 and the message is neither rendered nor buffered |
| FeedProtocol.EmptyPageStartsBelow | frontend/src/state/feedReducer.ts:31-32 | an empty first page over a log that starts above zero leaves the frontier below the log |
| FeedProtocol.RepairProgress | frontend/src/state/useFeed.ts:69-72 | the reply to a repair issued at n brings the frontier to min(n + 500, end of the log it saw), whatever happened meanwhile |
| FeedProtocol.AdvancesIff | frontend/src/state/feedReducer.ts:31-32 | some run advances the client exactly when the frontier is not below the first logged ordinal; an empty first page over a log that starts above zero stalls |
| FeedProtocol.StuckBelowOrigin | frontend/src/state/feedReducer.ts:31-32 | no run at all advances a client that starts below the first logged ordinal |
| FeedRounds.RoundsReach | frontend/src/state/useFeed.ts:63-82 | in every run that contains k repair rounds among any other steps, the frontier ends at least at min(n + 500 k, what the replies saw) |
| FeedRounds.RoundsEmptyBuffer | frontend/src/state/useFeed.ts:63-82 | after ceil((maxBuffered - n + 1) / 500) rounds no buffered ordinal up to maxBuffered is left |
| FeedNames.NamesDecide | internal/repository/persistence.go:432-436 | all runs that offer the same ordinals end with the same rendered and buffered messages exactly when every new row's display name is its sender id |
| FeedNames.TwoOutcomes | internal/repository/persistence.go:432-436 | otherwise two runs, one with the live event and one with stored rows only, end differently |
| SendDb.LiveEventIsRendition | internal/repository/persistence.go:432-436 | the published event is the logged row with the caller id for the display name, equal exactly when the two coincide |
| SendDb.BindIff | internal/repository/persistence.go:523-538 | binding succeeds exactly when every listed draft is free, unexpired, the caller's own, in the channel and listed once, and then changes exactly those drafts |
| SendDb.Store.BindDrafts | internal/repository/persistence.go:523-538 | the update loop, one draft at a time |
| SendDb.Store.Send | internal/repository/persistence.go:397-434 | one send: all of it or nothing |
| SendDb.ChannelsStayDense | internal/repository/persistence.go:409-412 | channel ordinals stay the interval above the channel's base up to its counter |
| SendDb.MediaStaysOwned | internal/repository/persistence.go:523-538 | every draft a message lists has it as parent, and a draft with a live parent is listed by it |
| SendDb.SentKeeps | internal/repository/persistence.go:397-434 | a send keeps feed and channel ordinals dense, event ids ascending and draft ownership exact |
| SendDb.AllocationGivesValidLog | internal/repository/persistence.go:413-417 | imported and sent rows together are the log the client protocol assumes: dense ordinals in bijection with ids |
| SendTx.CommitIsSerial | internal/repository/persistence.go:409-434 | under the row locks a commit equals the whole send run alone on the committed rows |
| SendTx.StepKeeps | internal/repository/persistence.go:397-434 | every step of every interleaving keeps the values read under locks current and the rows dense |
| SendTx.EveryRunIsDense | internal/repository/persistence.go:397-434 | for any number of concurrent sends with aborts anywhere: committed feed ordinals are a gap-free interval up to the counter, channel ordinals likewise, event-id order is ordinal order is commit order |
| SendTx.RunIsSerial | internal/repository/persistence.go:397-434 | every interleaving leaves the rows of its committed sends run one after another in commit order |
| SendTx.WaitsForLater | internal/repository/persistence.go:409-416 | who waits is behind whom it waits for in the order channel row, feed row, media rows |
| SendTx.NoDeadlock | internal/repository/persistence.go:409-431 | while a transaction is open some open transaction can take its next step, or its own request is refused and it aborts |
| SendTx.StepsAreBounded | internal/repository/persistence.go:397-434 | each step of an open transaction uses up part of a bound fixed when it began |
| Fanout.EventsAfter | internal/repository/persistence.go:445-476 | the replay is exactly the visible rows above the id |
| Fanout.StepKeeps | internal/handler/server.go:189-242 | every step of commits, handlers and connections keeps the no-loss, at-most-once and order invariants |
| Fanout.NothingLostWhileConnected | internal/handler/server.go:104-119 | in every interleaving each committed event the client asked for and may see is written, in the replay, in the stream, or held by a handler that will offer it |
| Fanout.SettledIsComplete | internal/handler/server.go:189-242 | once nothing is on its way the client was sent exactly the visible events it asked for, each at most once from the replay and once from the stream |
| Reconnect.ReconnectMissesNothingIff | internal/handler/server.go:175-242 | a client that resumes with the id written last and settles was sent every event it asked for on one of its two connections exactly when the handlers of all skipped events had not yet copied the subscribers at the new subscription |
| Reconnect.ReconnectInAnyRun | internal/handler/server.go:175-242 | the same in every run of the server |
| Reconnect.ReconnectCanLose | internal/handler/server.go:218-242 | a whole run in which a committed, visible event is sent on neither connection although nothing is on its way any more |
| Chunks.Deduplicate | internal/client/model_service.go:76-86 | the seen-map loop computes first occurrences |
| Chunks.DedupIsFirstOccurrences | internal/client/model_service.go:76-86 | every value once, first occurrences in order, prefixes stay prefixes |
| Chunks.DedupLeft | internal/client/model_service.go:67-73 | merging the open chunk's list first changes nothing |
| Chunks.DedupRight | src/model_service/app.py:141-145 | deduplicating the new message's list on the Python side first changes nothing |
| Chunks.ExtendChunk | src/model_service/app.py:118-147 | assembling one more message onto a chunk gives the chunk of the longer run: text, ids, media and token count |
| Chunks.FoldIsSegmentation | internal/service/index_worker.go:105-122 | folding messages through open/append/close gives the table of the greedy segmentation |
| Chunks.SegmentsAreGreedy | internal/service/index_worker.go:105-122 | segments partition the stream, are within the limits or single messages, and each extended by the next first message breaks a limit |
| Chunks.GreedyIsMinimal | internal/service/index_worker.go:105-122 | when a contiguous part of the stream never costs more tokens than a run around it, no partition into allowed chunks is shorter |
| Chunks.FewestChunks | internal/service/index_worker.go:105-122 | so the fold uses the fewest chunks |
| Chunks.LengthCostsLess | src/model_service/app.py:130-140 | counting characters meets that hypothesis on every stream of one channel |
| Chunks.RowsWithinLimits | internal/service/index_worker.go:105-122 | each chunk is within both limits or holds a single message |
| IndexStore.NextEvent | internal/repository/indexing.go:73-102 | unfinished work first, then the oldest eligible pending event |
| IndexStore.Store.NextIndexMessage | internal/repository/indexing.go:73-102 | claiming marks a pending event and counts the attempt |
| IndexStore.Store.CompleteOpenAppend | internal/repository/indexing.go:165-191 | append and completion in one transaction, with the inner ordinal guard |
| IndexStore.Store.CloseAndOpen | internal/repository/indexing.go:194-222 | freeze, embed, open and complete in one transaction |
| IndexRuns.FailuresBury | internal/repository/indexing.go:253-256 | a failing event is put back with its attempt counted until the fifth failure, which makes it a dead letter; nothing else changes |
| IndexWorker.Worker.ProcessMessage | internal/service/index_worker.go:100-132 | claim to commit with a failure at any point |
| IndexWorker.Worker.ProcessOne | internal/service/index_worker.go:79-85 | one call of the worker |
| IndexWorker.Worker.BuildSeed | internal/service/index_worker.go:65-76 | the seed loop stops at the first message that does not commit |
| ChunkTable.ProcessedEffect | internal/service/index_worker.go:100-139 | a committed message is placed by the pure fold on its channel's rows and touches no other channel, unless overtaken, when no row changes |
| IndexRuns.WorkKeeps | internal/repository/indexing.go:165-222 | one call keeps the table invariant and never changes a closed chunk |
| IndexRuns.LiveRun | internal/repository/indexing.go:73-222 | over every outbox run with retries, overtaking and crashes: one processing event at most, one open tail per channel at the top of contiguous indices, embeddings of exactly the closed rows from their frozen text, closed rows unchanged |
| IndexRuns.OnePlacePerMessage | internal/repository/indexing.go:165-222 | a message id has one place in the whole table, and its event is done |
| IndexRuns.IndexedIffNotOvertaken | internal/repository/indexing.go:177-181 | a committed message enters the chunks exactly when it was not overtaken |
| IndexOvertaken.OvertakenIsLost | internal/repository/indexing.go:177-181 | a run with one failed model call in which a message is marked done but is in no chunk |
| IndexRuns.InOrderRun | internal/service/index_worker.go:79-132 | with any channel interleaving, failures and crashes but no overtaking, each channel's rows are the pure fold over its finished messages |
| IndexRuns.WorkDecreases | internal/service/index_worker.go:134-139 | a call that finds work lowers the measure over attempts and statuses unless it was interrupted |
| IndexRuns.FreshEventsFinish | internal/repository/indexing.go:253-256 | N fresh events cost at most 5N uninterrupted calls, and finding no work means done or dead letter |
| IndexSeed.ResumesWhereItStopped | internal/repository/indexing.go:107-121 | the resume query returns exactly the messages not folded in yet |
| IndexSeed.SeedSessions | internal/service/index_worker.go:65-76 | a seed build stopped and restarted at any points holds the fold of a prefix; an undisturbed session completes it |
| IndexSeed.BulkMatchesLive | internal/service/index_worker.go:63-132 | a completed seed build and an in-order live run leave the same rows |
| IndexSeed.EverySeedBuild | internal/service/index_worker.go:65-76 | from empty tables, however often it is stopped and restarted, a seed build holds the fold of a prefix |
| IndexSeed.EveryOutboxRun | internal/service/index_worker.go:79-132 | from empty tables, every outbox run keeps the table invariant, and every in-order one the fold |
| UnionFind.CompressKeepsSets | src/evaluation/golden/builder.py:88-91 | path compression changes no representative and keeps links going down |
| UnionFind.LinkMerges | src/evaluation/golden/builder.py:93-99 | linking two roots merges exactly their sets under the smaller root |
| UnionFind.DisjointSets.Find | src/evaluation/golden/builder.py:88-91 | recursive find with compression ends and returns the representative |
| UnionFind.DisjointSets.Union | src/evaluation/golden/builder.py:93-99 | union merges exactly two sets |
| UnionFind.SameRepIffConnected | src/evaluation/golden/builder.py:82-99 | two elements share a representative exactly when the applied edges connect them |
| UnionFind.RepIsLeast | src/evaluation/golden/builder.py:93-99 | a representative is the least element of its component |
| UnionFind.RepIndependentOfOrder | src/evaluation/golden/builder.py:128-132 | order, repetition and direction of the edges do not matter |
| Components.ApplyEdges | src/evaluation/golden/builder.py:128-132 | the edge loop applies exactly the edges between groups that have rows |
| Components.GroupByRoot | src/evaluation/golden/builder.py:134-143 | groups collected by root, in root order |
| Components.Build | src/evaluation/golden/builder.py:102-149 | the result is the connected components of the groups, members ascending, ordered by least member |
| Components.SameBlockIffConnected | src/evaluation/golden/builder.py:134-143 | two groups are in one component exactly when the applied edges connect them |
| Components.GroupingUnique | src/evaluation/golden/builder.py:102-149 | there is one such grouping, whatever the order of rows and edges |
| SplitLeak.FirstLeak | src/evaluation/golden/builder.py:278-283 | the first crossing edge, or none when no edge crosses |
| SplitLeak.AssignGroups | src/evaluation/golden/builder.py:336-339 | every group takes its component's split |
| SplitLeak.NoLeakIffWholeComponents | src/evaluation/golden/builder.py:266-283 | a split of the groups leaks over no edge exactly when it cuts no component |
| SplitLeak.ComponentSplitNeverLeaks | src/evaluation/golden/builder.py:330-339 | whichever components go to dev, no duplicate edge crosses |
| SplitLeak.ClusterEdges | src/evaluation/golden/builder.py:321-328 | exactly the pairs of clusters of two to ten members |
| SplitLeak.ClusterStaysTogether | src/evaluation/golden/builder.py:321-328 | the groups of a small cluster end up in one component |
| SplitSearch.FullChoice | src/evaluation/golden/builder.py:179-185 | at 416 rows the only feasible extension that stops there takes nothing more, and it is feasible as soon as any extension is |
| SplitSearch.Pruned | src/evaluation/golden/builder.py:187-192 | both prunings cut only infeasible choices |
| SplitSearch.Searcher.Search | src/evaluation/golden/builder.py:177-207 | for any components, the backtracking search returns the first feasible choice, in include-first order, among those that stop at the total, or restores the stack and no choice is feasible |
| SplitSearch.FirstOfAll | src/evaluation/golden/builder.py:177-207 | when every component has a row, that is the first of all feasible choices |
| SplitAssign.CountRows | src/evaluation/golden/builder.py:158-166 | strata counted per component |
| SplitAssign.SidesAgree | src/evaluation/golden/builder.py:217-227 | adding up the components of a side counts exactly the rows of that side |
| SplitAssign.AssignSplits | src/evaluation/golden/builder.py:152-263 | success, total mismatch and infeasible quota, each exactly when it should be |
| SplitAssign.AssignedMeetsQuotas | src/evaluation/golden/builder.py:217-245 | a successful assignment has 416 dev rows within every quota and 623 test rows, and dev and test strata add up to all rows |
| SplitAssign.AssignedIsFirstOfAll | src/evaluation/golden/builder.py:194-207 | components built from rows have rows, so the assignment is the first feasible choice of all |
| SplitAssign.FirstUnique | src/evaluation/golden/builder.py:196-207 | the first feasible choice is unique |
| SplitAssign.OutcomeIndependentOfRowOrder | src/evaluation/golden/builder.py:152-263 | permuting the rows changes nothing in the outcome |
| SplitAssign.BuildSplits | src/evaluation/golden/builder.py:330-339 | rows and edges in, leak-free group splits out |
| SplitAssign.SplitIndependentOfOrder | src/evaluation/golden/builder.py:102-263 | components and outcome are independent of row order, edge order, repetition and direction |
| Release.CheckAllOk | src/evaluation/golden/builder.py:979-1001 | the artifact checks pass exactly when each artifact passes, and then yield each artifact's verified bytes |
| Release.VerifyArtifacts | src/evaluation/golden/builder.py:979-1001 | the loop stops at the first artifact that fails |
| Release.ResolveDependsOn | src/evaluation/golden/builder.py:923-1054 | only the pointer and the directory it names matter to a reader |
| Publish.NextKeeps | src/evaluation/golden/builder.py:747-832 | every file-system step, crash, exception and clean-up step keeps the publication invariant |
| Publish.OldOrNew | src/evaluation/golden/builder.py:747-832 | at every point of a publication, unless a clean-up after the swap could not read CURRENT, a reader gets the complete old release or the complete new one |
| Publisher.Files.Attempt | src/evaluation/golden/builder.py:749-797 | the steps in order, up to the one that raises |
| Publisher.Files.RollBack | src/evaluation/golden/builder.py:799-832 | the clean-up keeps the new directory when it reads in CURRENT that it is active, and removes it otherwise, also when CURRENT cannot be read |
| Publisher.Files.Publish | src/evaluation/golden/builder.py:747-843 | success leaves the release current; a failure before the swap puts the disk back as it was, except that a directory renamed but not yet noted stays behind; CURRENT's directory survives exactly when the swap had not happened or the clean-up could read CURRENT |
| Publisher.MisreadDangles | src/evaluation/golden/builder.py:808-819 | after the swap, an exception and an unreadable CURRENT lead to a pointer to a directory that is gone |
| Publisher.TraceInv | src/evaluation/golden/builder.py:747-832 | every moment of the publisher is a state of the step system |
| PublishRuns.CurrentNeverDangles | src/evaluation/golden/builder.py:808-819 | no clean-up removes the directory CURRENT names, unless one after the swap could not read CURRENT |
| PublishRuns.FrozenForever | src/evaluation/golden/builder.py:700-706 | a released directory never changes again, through any number of publications and failures in which the clean-ups can read CURRENT |
| PublishRuns.ReaderSeesOneRelease | src/evaluation/golden/builder.py:923-1054 | a reader interleaved in any way gets exactly the release that was current when it read CURRENT |
| Promote.ResolvesIffWellStaged | src/evaluation/golden/builder.py:923-1037 | a published job resolves exactly when its staged files agree with what it announces |
| Promote.PublishResolveRoundTrip | src/evaluation/golden/builder.py:685-843 | resolving after publishing returns exactly the staged bytes of every artifact |
| Promote.PromotedResolvesIff | src/evaluation/golden/builder.py:1111-1222 | what a promotion publishes resolves as approved exactly when the candidate's manifest vouches for its judgment file |
| Promote.PromotionRoundTripIff | src/evaluation/golden/builder.py:1111-1222 | promoting what CURRENT resolves to, with an accepted audit, gives an approved release with the same gold bytes that names the candidate exactly when the candidate's files lie under their own names |
| PublishRuns.PlainForever | src/evaluation/golden/builder.py:778-784 | publications only ever leave pointers whose artifacts are stored under their own names |
| Promote.PromotionRoundTrip | src/evaluation/golden/builder.py:1111-1222 | so in every run of publications the promotion of a candidate that resolves round-trips |
| Promote.UnvouchedPromotion | src/evaluation/golden/builder.py:1111-1222 | a published directory whose manifest does not vouch for its judgment file is promoted by id without complaint and gives a release that does not resolve |
| Promote.PromoteCandidate | src/evaluation/golden/builder.py:1067-1222 | the whole promotion: refused with the disk untouched, or published like any release |
| AntiLeak.MarkControls | src/evaluation/golden/builder.py:495-504 | every twentieth of the answerable rows is marked |
| AntiLeak.ControlGroupSize | src/evaluation/golden/builder.py:495-504 | the control group is one in twenty, rounded up |
| AntiLeak.Judge | src/evaluation/golden/builder.py:539-601 | the branches of one evaluated row |
| AntiLeak.RunGate | src/evaluation/golden/builder.py:478-631 | rows, counters overall and per stratum, released hits, and failure exactly above fifteen per cent |
| AntiLeak.OutcomesPartition | src/evaluation/golden/builder.py:539-601 | evaluated = control + clean + rewritten + unrewritable, overall and in each stratum |
| AntiLeak.ReleasedHitsBalance | src/evaluation/golden/builder.py:616-627 | released hits = initial hits - rewritten |
| AntiLeak.RowsPreserved | src/evaluation/golden/builder.py:555-614 | ids, strata and evidence never change, control rows keep their query, and a changed query was a hit and is one no more |
| NearDup.ZeroIffEqual | src/artifacts/visual/pipeline.py:105-106 | the bit count of the exclusive or is zero exactly between equal hashes |
| NearDup.DifferingSymmetric | src/artifacts/visual/pipeline.py:105-106 | and symmetric |
| NearDup.DifferingTriangle | src/artifacts/visual/pipeline.py:105-106 | and no shorter by a detour |
| NearDup.JoinSimilar | src/artifacts/visual/pipeline.py:132-154 | one record per pair over a threshold, in order, and every such pair joined |
| NearDup.ClustersAndEdges | src/artifacts/visual/pipeline.py:125-166 | clusters and edges together |
| NearDup.SameClusterIffConnected | src/artifacts/visual/pipeline.py:155-166 | clusters are exactly the connected components of the threshold graph |
| NearDup.NumbersFollowLeastMembers | src/artifacts/visual/pipeline.py:158-162 | cluster numbers are 1..k by least member |
| NearDup.StricterRefines | src/artifacts/visual/pipeline.py:138-145 | stricter thresholds can only split clusters |
| NearDup.EdgeCountsAddUp | src/artifacts/visual/pipeline.py:170-174 | cosine + phash - both is the number of edges |
| NearDup.SizeHistogram | src/artifacts/visual/pipeline.py:167-169 | the size histogram counts each size and sums back to the rows |
| NearDup.Statistics | src/artifacts/visual/pipeline.py:167-176 | the statistics of one clustering |
| Bm25.AverageIsPositive | experiments/segment_gap/run.py:162-163 | the average length is not zero where it is divided by |
| Bm25.PostingsList | experiments/segment_gap/run.py:164-174 | each document with the term is listed once with its count, and the list is as long as the document frequency |
| Bm25.Index.constructor | experiments/segment_gap/run.py:159-174 | the built index is the postings and frequencies of the documents |
| Bm25.SensibleIsDefined | experiments/segment_gap/run.py:184-186 | with the usual constants the formula never divides by zero |
| Bm25.Index.Scores | experiments/segment_gap/run.py:179-186 | scores through the postings equal direct scoring, for exactly the documents that share a query term; they fail exactly when the formula divides by zero |
| Bm25.ScoreOrderFree | experiments/segment_gap/run.py:180-186 | the order in which the query's terms are visited does not matter |
| Bm25.Index.Top | experiments/segment_gap/run.py:176-187 | a score-descending list of the best k candidates, whatever the order of the distinct query terms |

## Left out

- Presentation: React components, scrolling, CSS, and the effect scheduling of the hook beyond which actions are enabled and their cursors.
- Transport: HTTP, SSE framing, JSON and PostgreSQL drivers, MinIO, migrations. Attachments, timestamps and the OK/error envelopes go with them.
- Foreign and numeric parts stay uninterpreted: tokenizer, model calls, embeddings, SHA-256, the logarithm, paraphrasing and the best match of the anti-leak gate. Cosines and scores are reals, so rounding is not modelled.
- Clock: backoff is nondeterministic eligibility; a send compares draft expiry with the one clock reading of its transaction.
- Ids: string ids of groups and media are represented by their rank in string order, outbox event ids by their position. Salted digests of component ids appear as an arbitrary order that depends on the components only.
- Send: blank text, empty caller or channel, and the membership check reject a request before it takes a lock and are not modelled; channel memberships do not change during a run.
- Fanout.StepKeeps: visibility is fixed and its check never fails; there is no liveness claim for a handler blocked on a full stream.
- IndexStore: the display column chunk_id and the observer hooks; the embedding is identified with the text it was made from.
- Mixed index runs: seed builds and outbox runs are treated separately, because closing a chunk has no ordinal guard.
- SplitAssign.AssignSplits: the report's per-quota differences and the group lists are not built; its verdicts and totals are.
- Components.GroupByRoot: near-duplicate clusters are ordered by their root, which the model proves to be the least member that the pipeline sorts by.
- Publication: one publisher at a time; the lock file, fsync, the removal of an empty releases directory and the published_at field are not modelled, and release_dir is the name of a directory, not an arbitrary path.
- Promotion: record-level validation of the audit is a given predicate on audit and gold bytes.
- AntiLeak.RunGate: the per-query outcome dictionary, content hashes and the dev saturation check.
- Tier authoring, sanitisers, vocabulary gates, record checks, config validation, viewers, seed import and segment building: text generation and record-by-record checks that none of the modelled guarantees rests on; the imported rows are taken as given.
