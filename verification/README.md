# Eulinx runtime: verified models

Eulinx is a TypeScript runtime for orchestrating workers. This project models its stateful
algorithms in Dafny and proves what they promise over all inputs, runs and interleavings:

- `ArtifactRelationships`: the artifact graph, its two indexes and the breadth-first cycle guard;
- `EventPriority`: the binary heap behind the event queue;
- `RefinementLoop`: Builder, Verifier, Critic and Judge passes under a cap and a budget;
- `UiBatcher` with `CoalescedSlots`: coalescing of output and progress events into UI batches;
- `AsyncQueue`: the concurrency limiter as a step system with barging waiters;
- `LiveRegion`: the rate-capped announcement coalescer;
- `EventBus`: sequence numbers, the buffered replay log, delivery and quarantine;
- `PromptCache`, `PromptManager` and `PromptRuns`: rendering through a least-recently-used cache;
- `ArtifactVersioning`: the line diff and version chains;
- `Chunker`: overlapping text chunks under a token budget;
- `EventReplay` and `ArtifactHistory`: sorted replay and gap reports;
- `ArtifactMerge`: the merge pipeline and its path locks.

`Prelude` and `Sorting` hold what the others share. Objects the runtime updates in place
are classes with the same fields; pure code is functions. Clocks, fresh identifiers, callbacks'
outcomes and the success of writes are parameters or constructor arguments. Callbacks do not call
back into the object that runs them, and clocks do not go backwards.

Where the code and its comments disagree the model follows the code:

- the priority queue orders by priority and sequence only, so events of one source may overtake each other (src/event-bus/event-priority.ts:136), exactly when a later one is more urgent and joins in time (`LaterLeavesFirstIff`; `SourceKeepsOrderIff` for one drain);
- `off` does not wait for something to raise it: the last announcement decides (src/a11y/live-region.tsx:107-111; `OrderIrrelevantIff` says when order does not matter);
- chunks are not all kept under 220 tokens (src/memory/chunker.ts:24-28; `SafeLengthsAreAll` gives the sentence lengths for which they are);
- a batch's first sequence may exceed its last, because progress events are replaced in place (src/event-bus/event-batcher.ts:134-138; exactly when, is `FirstExceedsLastIff`);
- a run of the refinement loop may be accepted after failed verification (src/orchestrator/refinement-loop.ts:213-235; `AcceptanceUnverifiedIff`);
- the desktop log is written at publish and again at flush (src/event-bus/event-bus.ts:511-519; `PublishThenFlush` counts the copies);
- a start resets the sequence counter but keeps the log (src/event-bus/event-bus.ts:133-141; `StartKeepsOrderIff`);
- a merge hook that throws leaves its merge's locks behind (src/artifact/artifact-merge.ts:138-200; `FirstRulingDecides`, `LeakRefusesForGood`), and a snapshot that is the empty string is never rolled back to (line 191; `EmptySnapshotIsNotRolledBack`);
- adjacent chunks do not always overlap by 40 tokens (src/memory/chunker.ts:24-27; `OverlapKeptIff`);
- deriving a version does not check that its number is free, and the cache then serves one template's text for another (src/prompts/prompt-manager.ts:91-103; `AlwaysRightIff`);
- the walk and validation of version chains cannot report a cycle, since the walk stops before one (src/artifact/artifact-versioning.ts:90, 269-274; `PassesAsHistoryIff` says which chains that pass are no histories).

## Model

| member | source | states |
|---|---|---|
| `ArtifactRelationships.EveryRunIsAcyclic` | src/artifact/artifact-relationships.ts:39-76 | After any run of creations and deletions that starts from an acyclic graph, such as the empty one, no walk of parent-child and derived-from edges returns to where it began |
| `ArtifactRelationships.GuardIsExact` | src/artifact/artifact-relationships.ts:201-221 | Adding a guarded edge to an acyclic graph keeps it acyclic if and only if its source cannot be reached from its target, so the guard refuses no harmless edge |
| `ArtifactRelationships.StepKeepsAcyclic` | src/artifact/artifact-relationships.ts:39-76 | One creation (guarded or not) or deletion keeps the graph acyclic |
| `ArtifactRelationships.CycleUsesReturnPath` | src/artifact/artifact-relationships.ts:197-200 | Any cycle that appears with a new edge contains a path from the edge's target back to its source |
| `ArtifactRelationships.MutualDerivationIsRefused` | src/artifact/artifact-relationships.ts:41-46 | Of two edges that derive two artifacts from each other the second is refused |
| `ArtifactRelationships.DeleteUndoesCreate` | src/artifact/artifact-relationships.ts:226-234 | Deleting a just created edge restores the graph, and so does deleting one the guard refused |
| `ArtifactRelationships.ParentIsOldest` | src/artifact/artifact-relationships.ts:113-116 | The parent is the target of the oldest surviving parent-child edge out of an artifact |
| `ArtifactRelationships.ChainIsUnique` | src/artifact/artifact-relationships.ts:168-184 | There is exactly one root-first parent chain that ends in a given artifact |
| `ArtifactRelationships.RisingIsDistinct` | src/artifact/artifact-relationships.ts:175-181 | In an acyclic graph a walk to ever older parents meets no artifact twice, so the visited guard never fires |
| `ArtifactRelationships.ExpansionIsLinks` | src/artifact/artifact-relationships.ts:213-218 | Expanding an artifact in the search queues precisely the artifacts it links to by a guarded edge |
| `ArtifactRelationships.SearchExpand` | src/artifact/artifact-relationships.ts:206-219 | Expanding an unvisited artifact keeps the search invariant and shrinks the unvisited part, although the queue may hold duplicates |
| `ArtifactRelationships.SearchEmpty` | src/artifact/artifact-relationships.ts:220 | When the queue runs dry without a hit the source really is unreachable |
| `ArtifactRelationships.PushGuarded` | src/artifact/artifact-relationships.ts:214-218 | The inner loop appends the targets of the guarded edges, in order, to what was queued |
| `ArtifactRelationships.ArtifactRelationships.Create` | src/artifact/artifact-relationships.ts:39-76 | Refuses exactly a parent-child or derived-from edge whose target already leads to its source by such edges, possibly trivially, and then changes nothing; otherwise adds the edge at the end; acyclicity and both indexes survive |
| `ArtifactRelationships.ArtifactRelationships.Delete` | src/artifact/artifact-relationships.ts:226-234 | Removes the edge with that identifier and no other, or answers false and changes nothing |
| `ArtifactRelationships.ArtifactRelationships.GetOutgoing` | src/artifact/artifact-relationships.ts:81-87 | What is read through the source index is exactly the live edges that leave the artifact, in creation order |
| `ArtifactRelationships.ArtifactRelationships.GetIncoming` | src/artifact/artifact-relationships.ts:92-98 | What is read through the target index is exactly the live edges that enter the artifact, in creation order |
| `ArtifactRelationships.ArtifactRelationships.GetParent` | src/artifact/artifact-relationships.ts:113-116 | Read through the index, the parent is the one the whole graph determines |
| `ArtifactRelationships.ArtifactRelationships.WouldCreateCycle` | src/artifact/artifact-relationships.ts:201-221 | The breadth-first search terminates and decides reachability of the source from the target, in both directions |
| `ArtifactRelationships.ArtifactRelationships.WalkDerivationChain` | src/artifact/artifact-relationships.ts:168-184 | Returns the one parent chain down to the artifact: it starts at an artifact without a parent and repeats none |
| `EventPriority.RootIsLeast` | src/event-bus/event-priority.ts:163-177 | In heap order no entry must leave before the root |
| `EventPriority.KeysTell` | src/event-bus/event-priority.ts:229-240 | The order of entries is the order of their events: more urgent first, then the lower sequence number |
| `EventPriority.SortedIsUnique` | src/event-bus/event-priority.ts:179-186 | With distinct keys a drain's result depends on what was queued, not on the order of arrival |
| `EventPriority.LeavesFirstIff` | src/event-bus/event-priority.ts:229-240 | Of two queued entries the one with the lower sequence leaves first exactly when the other is not more urgent |
| `EventPriority.SourceKeepsOrderIff` | src/event-bus/event-priority.ts:135-139 | A drain lets the events of one source leave in sequence if and only if none of its later events is more urgent than an earlier one; the source is any subset of the entries |
| `EventPriority.LaterLeavesFirstIff` | src/event-bus/event-priority.ts:151-186 | Over any run of enqueues and dequeues, of two events of which the later one has the higher sequence number, the later leaves first if and only if it joined before the other left and is more urgent |
| `EventPriority.LaterCriticalOvertakes` | src/event-bus/event-priority.ts:135-139 | The failing input: a critical event overtakes the low one its source sent before, in every order a drain can produce |
| `EventPriority.SinkStep` | src/event-bus/event-priority.ts:205-227 | Swapping an entry with its smaller child moves the only place where heap order may fail down to that child |
| `EventPriority.BubbleStep` | src/event-bus/event-priority.ts:188-203 | Swapping an entry with its parent moves the only place where heap order may fail up to that parent |
| `EventPriority.EventPriorityQueue.Enqueue` | src/event-bus/event-priority.ts:151-161 | Adds exactly the event, keyed by its listed urgency (normal when unlisted) and its own sequence number, and restores heap order |
| `EventPriority.EventPriorityQueue.Dequeue` | src/event-bus/event-priority.ts:163-173 | Removes exactly one event; no queued one is more urgent (critical, high, normal, low), or as urgent with a lower sequence number; nothing on an empty queue |
| `EventPriority.EventPriorityQueue.Peek` | src/event-bus/event-priority.ts:175-177 | Shows an event that none queued is more urgent than, or as urgent with a lower sequence number, and nothing when the queue is empty |
| `EventPriority.EventPriorityQueue.Drain` | src/event-bus/event-priority.ts:179-186 | Empties the queue into a permutation of what it held, in which urgency never rises and events of one urgency come by sequence number |
| `EventPriority.EventPriorityQueue.BubbleUp` | src/event-bus/event-priority.ts:188-203 | Turns an array whose order fails at most above one position into a heap with the same contents |
| `EventPriority.EventPriorityQueue.SinkDown` | src/event-bus/event-priority.ts:205-227 | Turns an array whose order fails at most below one position into a heap with the same contents |
| `RefinementLoop.RefinementLoopEngine.Run` | src/orchestrator/refinement-loop.ts:144-325 | For any answers the result is the one the pass outcomes, the mode's cap (1, 2, 4 or 8) and the budget determine, it is an error exactly when a role failed on the last pass, and the events emitted are those of the passes made |
| `RefinementLoop.RefinementLoopEngine.RunPass` | src/orchestrator/refinement-loop.ts:168-320 | One pass spends, records, emits and moves the leader and the streak as its outcome says, and leaves exactly with the reason the outcome gives |
| `RefinementLoop.ResultIsUnique` | src/orchestrator/refinement-loop.ts:144-325 | Given the answers, the budget and the cap, only one result fits the description that Run meets |
| `RefinementLoop.PassSettles` | src/orchestrator/refinement-loop.ts:213-320 | Leader and streak carried from pass to pass are those of the whole history, and the loop leaves a pass exactly when that pass ends the run |
| `RefinementLoop.LeaderIsFirstMaximum` | src/orchestrator/refinement-loop.ts:288-295 | The best score is the maximum of zero and the scores of the verified passes, and the best artifact is the first to reach it |
| `RefinementLoop.StreakOfTwo` | src/orchestrator/refinement-loop.ts:313-317 | The no-improvement counter reaches two exactly when the last two verified passes both failed to beat the best before them |
| `RefinementLoop.ExitsExplained` | src/orchestrator/refinement-loop.ts:381-398 | A stuck exit means a stop verdict or two failed verified passes; without acceptance the final artifact is the first maximum of the history; with it the last pass was accepted |
| `RefinementLoop.ExitsByAnswers` | src/orchestrator/refinement-loop.ts:184-325 | Every exit reason is decided, both ways, by the executors' answers on the last pass: which role failed, what the Judge said, whether verification passed; no earlier pass is like that; the total is the sum of the phase costs, and an accepted result is the last pass's artifact and score |
| `RefinementLoop.OutcomeByAnswers` | src/orchestrator/refinement-loop.ts:184-300 | A pass is an error exactly when Builder or Verifier fails, or past a passed verification Critic or Judge; it is recorded exactly when all roles it needs answer, and the record holds their answers and summed cost |
| `RefinementLoop.HistoryByAnswers` | src/orchestrator/refinement-loop.ts:230-300 | The history has one record for each pass on which all answered, and no other |
| `RefinementLoop.EventsByAnswers` | src/orchestrator/refinement-loop.ts:171-286 | Each role's event is emitted exactly when it and those before it answered |
| `RefinementLoop.BudgetIsDifference` | src/orchestrator/refinement-loop.ts:351-359 | With non-negative costs the saturating budget equals budget minus spending floored at zero at all times, if and only if the budget starts non-negative |
| `RefinementLoop.NegativeCostBreaksBudget` | src/orchestrator/refinement-loop.ts:351-359 | A concrete run in which a negative cost makes the remaining budget differ from that difference |
| `RefinementLoop.BudgetIsDifferenceIff` | src/orchestrator/refinement-loop.ts:351-359 | For any costs and any budget, after passes 1..n the saturating budget is the floored plain difference if and only if the running total never exceeded the budget or stands at its peak now |
| `RefinementLoop.DrawAllFromPeak` | src/orchestrator/refinement-loop.ts:351-359 | Drawing any costs down one by one leaves the larger of the budget and the peak of the running total, less the whole total |
| `RefinementLoop.PeakIsLargest` | src/orchestrator/refinement-loop.ts:351-359 | The peak is the greatest sum that a non-empty first part of the costs adds up to |
| `RefinementLoop.RunDrawsItsCosts` | src/orchestrator/refinement-loop.ts:174-286 | The loop's budget and total are those of its phase costs, charged in phase order |
| `RefinementLoop.PassesStartBelowBudget` | src/orchestrator/refinement-loop.ts:161-166 | Every pass starts with total cost strictly below the budget, so a run overspends by less than its last pass costs |
| `RefinementLoop.HistoryCostBounded` | src/orchestrator/refinement-loop.ts:361-379 | The recorded passes cost at most what was spent, and exactly that when every pass was recorded |
| `RefinementLoop.PassNumbersIncrease` | src/orchestrator/refinement-loop.ts:300 | Pass numbers in the history strictly increase and stay within the passes made |
| `RefinementLoop.AcceptanceMayFollowFailedVerification` | src/orchestrator/refinement-loop.ts:213-235 | A concrete run that is accepted although its verification failed |
| `RefinementLoop.EndsUnverifiedIff` | src/orchestrator/refinement-loop.ts:213-235 | With a given budget and cap a run ends accepted after a failed verification if and only if it reaches a pass within the cap whose verification failed and whose verdict is accept |
| `RefinementLoop.AcceptanceUnverifiedIff` | src/orchestrator/refinement-loop.ts:213-235 | Some budget leads there, whatever the costs, if and only if there is such a pass and no earlier pass ends the run |
| `UiBatcher.UiBatcher.Push` | src/event-bus/event-batcher.ts:67-152 | An immediate event is emitted alone after everything that waited; any other joins the slot of its key or a new slot, and a full batch is emitted; the timer stays armed exactly while the open batch is non-empty |
| `UiBatcher.UiBatcher.Flush` | src/event-bus/event-batcher.ts:164-193 | Emits the open batch with the pending drop count, empties it and disarms the timer; an empty batch emits nothing and keeps the count |
| `UiBatcher.UiBatcher.RecordDrop` | src/event-bus/event-batcher.ts:157-159 | One more drop is pending and nothing else changes |
| `UiBatcher.UiBatcher.OnTimer` | src/event-bus/event-batcher.ts:230-233 | A timer that fires finds a non-empty batch and emits it |
| `UiBatcher.UiBatcher.Coalesce` | src/event-bus/event-batcher.ts:92-119 | An event whose key is open goes into that key's slot, and the indexes stay exact |
| `UiBatcher.UiBatcher.Append` | src/event-bus/event-batcher.ts:121-126 | A new slot is indexed under its event's own key |
| `UiBatcher.UiBatcher.MaybeScheduleFlush` | src/event-bus/event-batcher.ts:217-235 | A full batch is emitted at once, any other gets a timer |
| `UiBatcher.SlotAccounting` | src/event-bus/event-batcher.ts:96-116 | An output chunk is a suffix of all that was pushed into it, the missing part is counted in its truncation, and it respects the cap once two chunks have merged |
| `UiBatcher.MergeStandsFor` | src/event-bus/event-batcher.ts:96-116 | Merging a chunk into a waiting event that stands for earlier pushes gives the event that stands for all of them |
| `UiBatcher.CutBeforeAppend` | src/event-bus/event-batcher.ts:100-106 | Cutting after every append leaves the same end of the stream as cutting once at the end |
| `UiBatcher.UntruncatedStream` | src/event-bus/event-batcher.ts:87-119 | Slots that lost nothing spell out, key by key, what was pushed behind them |
| `UiBatcher.StreamSurvives` | src/event-bus/event-batcher.ts:67-193 | The chunks of an output key in the emitted batches followed by the open one are the pushed stream, in order, if and only if no event of the key lost a character |
| `UiBatcher.UiBatcher.StreamIntactIff` | src/event-bus/event-batcher.ts:67-193 | The same of every reachable state of the batcher |
| `UiBatcher.StreamLength` | src/event-bus/event-batcher.ts:96-116 | The slots of a key never show more than was pushed, and as many characters exactly when nothing of the key was truncated |
| `UiBatcher.FirstExceedsLastIff` | src/event-bus/event-batcher.ts:134-138 | For a batch whose events were pushed in sequence, whatever was pushed before it was opened, its first number exceeds its last if and only if it has several slots, the first is a progress report, and that was renewed after the event the last slot shows |
| `UiBatcher.RenewedProgressReverses` | src/event-bus/event-batcher.ts:134-138 | The failing input: a progress report, another event, and the report renewed give a batch from 3 to 2 |
| `UiBatcher.NameTellsIff` | src/event-bus/event-batcher.ts:89-90 | A coalescing name tells its event type, source and channel against all others if and only if source and channel are free of ':' |
| `UiBatcher.CleanNamesDiffer` | src/event-bus/event-batcher.ts:89-90 | Among channels without ':', whatever the sources, a name stands for one event type, source and channel, so a key's stream is one source's channel |
| `UiBatcher.OutputKeysAgreeIff` | src/event-bus/event-batcher.ts:88-90 | On channels without ':' two output events share a key if and only if type and channel agree and they come from one worker, or without worker ids from one process, or neither has an id |
| `UiBatcher.ProgressKeysAgreeIff` | src/event-bus/event-batcher.ts:131-132 | Progress reports share a key if and only if they report on one execution, and with nothing else |
| `UiBatcher.UiBatcher.SourcesStayApart` | src/event-bus/event-batcher.ts:87-147 | In every reachable state an emitted or open event stands for pushes of its own type, channel and source, or its own execution, only |
| `UiBatcher.OneSourceBehindSlot` | src/event-bus/event-batcher.ts:87-147 | Behind a slot there are only pushes of the output or execution the slot shows |
| `UiBatcher.TypeNamesAre` | src/event-bus/event-batcher.ts:87-130 | The type names that decide about immediate emission |
| `CoalescedSlots.LookupIsSearch` | src/event-bus/event-batcher.ts:92-93 | While the coalesce map is exact, looking a key up in it and searching the open batch for it agree |
| `CoalescedSlots.BehindGrow` | src/event-bus/event-batcher.ts:108-116 | Growing the last slot of a key extends that key's order by the event and changes no other key's |
| `CoalescedSlots.AccountMerge` | src/event-bus/event-batcher.ts:108-116 | After a merge the slots still hold, key by key and in order, all that was ever pushed |
| `CoalescedSlots.AccountFlush` | src/event-bus/event-batcher.ts:185-192 | After a flush the emitted slots still hold, key by key and in order, all that was ever pushed |
| `AsyncQueue.RunsKeepInv` | src/core/async.ts:131-143 | Over any interleaving of calls, finishes and resumptions the limit holds, no task is lost or doubled, and waiters wait only while running plus woken tasks reach the limit |
| `AsyncQueue.StepKeepsInv` | src/core/async.ts:131-143 | Each single step keeps that invariant |
| `AsyncQueue.StepMovesOne` | src/core/async.ts:131-143 | A step moves one task between places, and only a call adds one |
| `AsyncQueue.StallsIffNoLimit` | src/core/async.ts:132-134 | A state with waiters and nothing running or woken is reachable exactly when the concurrency is zero or negative |
| `AsyncQueue.StepDoesWork` | src/core/async.ts:131-143 | Every step other than a call reduces the work left, even when a woken waiter queues again |
| `AsyncQueue.CallFreeRunsEnd` | src/core/async.ts:131-143 | Once calls stop, a run is no longer than the work that was left |
| `AsyncQueue.QuietIffNothingEnabled` | src/core/async.ts:131-143 | Nothing but a new call is possible exactly when nothing runs and nothing is woken |
| `AsyncQueue.QuietMeansDone` | src/core/async.ts:131-143 | With a positive limit a run that can go no further has finished every task called, each once |
| `AsyncQueue.BargingReorders` | src/core/async.ts:132-134 | A concrete run in which a later caller overtakes a woken waiter, who queues again behind newer arrivals |
| `AsyncQueue.CallOrderIff` | src/core/async.ts:131-143 | A run that resumes waiters in wake order starts its tasks in call order if and only if no call is admitted while a woken waiter has not resumed |
| `AsyncQueue.OrderlyStep` | src/core/async.ts:131-143 | Without barging running plus woken tasks stay within the limit, so every resumption starts its task |
| `AsyncQueue.BargingStep` | src/core/async.ts:132-135 | The first call that barges starts in the turn of the waiter woken first |
| `AsyncQueue.TraceFollowsRun` | src/core/async.ts:131-143 | The recorded calls and starts are the tasks the run called and the tasks that are running or done |
| `AsyncQueue.AsyncQueue.Begin` | src/core/async.ts:131-135 | A call's first stretch is the call step of the state machine |
| `AsyncQueue.AsyncQueue.WakeUp` | src/core/async.ts:132-135 | A woken waiter's stretch is the resume step |
| `AsyncQueue.AsyncQueue.Settle` | src/core/async.ts:138-142 | The finally block is the finish step and wakes the first waiter if there is one |
| `LiveRegion.BatchPoliteness` | src/a11y/live-region.tsx:99-114 | The loop returns assertive exactly when some member is, by its worker state's politeness or without a state by its own, and otherwise what the last member says |
| `LiveRegion.RulingDependsOnOrder` | src/a11y/live-region.tsx:107-111 | The same polite and off announcements rule differently when swapped, unlike what the comment beside the code says |
| `LiveRegion.OrderIrrelevantIff` | src/a11y/live-region.tsx:99-114 | A batch rules alike in every order if and only if some member is assertive, or it does not hold both polite and off members |
| `LiveRegion.AnyWindowHoldsAtMost` | src/a11y/live-region.tsx:176-183 | Emissions spaced as the cap demands put at most that many into any window of one second |
| `LiveRegion.RecentIsSuffix` | src/a11y/live-region.tsx:177 | Forgetting stale timestamps keeps the end of the list and forgets only what is a window old |
| `LiveRegion.SpokenAreRemembered` | src/a11y/live-region.tsx:176-179 | Counting the remembered times counts all lines ever spoken less than a second before |
| `LiveRegion.TickKeepsCap` | src/a11y/live-region.tsx:175-177 | Forgetting stale timestamps as time passes keeps the cap provable |
| `LiveRegion.EmitKeepsCap` | src/a11y/live-region.tsx:179-185 | Speaking when fewer than the cap are remembered keeps every window within the cap |
| `LiveRegion.AnnouncementCoalescer.Enqueue` | src/a11y/live-region.tsx:160-166 | The announcement joins the buffer and a timer is armed |
| `LiveRegion.AnnouncementCoalescer.Flush` | src/a11y/live-region.tsx:169-205 | Speaks the whole buffer with the count of suppressed ones exactly when fewer lines than the cap were spoken less than a second before, else suppresses it; every announcement stays accounted for |
| `LiveRegion.AnnouncementCoalescer.OnTimer` | src/a11y/live-region.tsx:164 | A scheduled callback does what a flush does, also one left over from before a drain; lines already spoken stay on record |
| `LiveRegion.AnnouncementCoalescer.Drain` | src/a11y/live-region.tsx:208-210 | Flushes a non-empty buffer under the same cap and accounts and otherwise changes nothing; lines already spoken stay on record |
| `LiveRegion.AnnouncementCoalescer.NoWindowOverflows` | src/a11y/live-region.tsx:136-211 | In every reachable state any one-second window, wherever it starts, holds at most the capped number of spoken lines |
| `EventBus.EventBus.Publish` | src/event-bus/event-bus.ts:214-316 | Refuses by state, size and log write in that order; otherwise numbers the event, logs it if replay-grade and leaves the log alone if not, and delivers what the middleware passes on to core, plugin and UI subscribers, leaving all others and the epoch untouched |
| `EventBus.EventBus.Admit` | src/event-bus/event-bus.ts:216-265 | The steps up to the log: a refused event takes no number unless its write failed, and the third failed write in a row fails the bus |
| `EventBus.EventBus.LogReplayGrade` | src/event-bus/event-bus.ts:243-265 | One log write keeps the log conserved and the failure count equal to the trailing run of failed writes |
| `EventBus.EventBus.WriteToLog` | src/event-bus/event-bus.ts:562-577 | Appends the event; in the browser a log that reaches the threshold moves to storage as a whole |
| `EventBus.EventBus.FlushLog` | src/event-bus/event-bus.ts:507-531 | Moves the in-memory log to storage in order; a failed browser write loses the batch, a failed desktop write only its own event |
| `EventBus.EventBus.FlushNow` | src/event-bus/event-bus.ts:507-531 | A flush between publishes keeps stored plus in-memory log equal to what was accepted |
| `EventBus.EventBus.Start` | src/event-bus/event-bus.ts:133-141 | Starts only from rest, numbers from one again and keeps the log |
| `EventBus.EventBus.Drain` | src/event-bus/event-bus.ts:155-179 | Flushes the log and stops from any state |
| `EventBus.EventBus.ForceStop` | src/event-bus/event-bus.ts:184-193 | Stops and leaves the in-memory log where it is |
| `EventBus.EventBus.DeliverTo` | src/event-bus/event-bus.ts:287-297 | Every matched subscriber of the kind gets the event once, in subscription order, and its own history grows by how its handler ended |
| `EventBus.EventBus.Distribute` | src/event-bus/event-bus.ts:283-303 | Core subscribers first, then plugins, then one hand-over to the UI batcher if a UI subscriber matches |
| `EventBus.EventBus.Matching` | src/event-bus/event-bus.ts:430-453 | A subscriber is matched exactly when it is not quarantined and its filter matches |
| `EventBus.EventBus.Subscribe` | src/event-bus/event-bus.ts:322-398 | Adds one subscriber with clean counters at the end, unless a plugin is at its limit; nothing but the subscribers changes |
| `EventBus.EventBus.Unsubscribe` | src/event-bus/event-bus.ts:403-405 | Removes one subscriber and keeps the order and counters of the others; nothing but the subscribers changes |
| `EventBus.WithoutIdKeepsOrder` | src/event-bus/event-bus.ts:403-405 | The remaining subscribers keep their order |
| `EventBus.PluginCountIs` | src/event-bus/event-bus.ts:364-374 | The count against the limit is that of the owner's plugin subscriptions |
| `EventBus.PickedInOrder` | src/event-bus/event-bus.ts:283-297 | Those picked for delivery are all matched subscribers of the kind, in subscription order, each once |
| `EventBus.EventBus.EpochLogIsOrdered` | src/event-bus/event-bus.ts:133-141 | With no failed storage write, stored plus in-memory log is what was accepted, and the current epoch's part has strictly increasing numbers |
| `EventBus.AppendConserves` | src/event-bus/event-bus.ts:562-563 | Logging an event extends stored plus in-memory log by it, in order |
| `EventBus.FlushConserves` | src/event-bus/event-bus.ts:507-531 | A successful flush neither loses, repeats nor reorders a logged event |
| `EventBus.SubscriptionEntry.Deliver` | src/event-bus/event-bus.ts:455-505 | A core handler whose promise is not fulfilled, or a plugin handler that throws, counts as a panic and can quarantine; every other end counts as a delivery and clears the panics |
| `EventBus.SubscriptionEntry.QuarantineMeansRun` | src/event-bus/event-bus.ts:470-475 | A subscriber is quarantined exactly when some run of panics reached the threshold |
| `EventBus.SubscriptionEntry.CountersByEnds` | src/event-bus/event-bus.ts:455-505 | By how the handler ended: the panic counter is the length of the last unbroken stretch of rejections or throws (for a plugin, of throws), quarantine holds exactly when some stretch reached the threshold, and all other ends are delivered |
| `EventBus.TrailingMeans` | src/event-bus/event-bus.ts:465-472 | The trailing count is at least k exactly when the last k deliveries all panicked |
| `EventBus.RunReachedIffTrailing` | src/event-bus/event-bus.ts:470-475 | Because deliveries stop at the threshold, the final streak tells whether any run ever reached it |
| `EventBus.RestartRepeatsNumbers` | src/event-bus/event-bus.ts:137 | A concrete log that spans a restart and holds one sequence number twice |
| `EventBus.StartKeepsOrderIff` | src/event-bus/event-bus.ts:133-141 | After a start every continuation without a failed storage write keeps the whole log strictly increasing if and only if the log was empty then, or held one event with the number 0, which the bus never gives out |
| `EventBus.NextPublishRepeats` | src/event-bus/event-bus.ts:234-240 | After a start with a numbered event at the end of the log, the next replay-grade event already breaks the order |
| `EventBus.EventBus.Continue` | src/event-bus/event-bus.ts:155-316 | A browser bus whose storage writes succeed goes through publishes, flushes, drains and stops exactly as those continuations say, whatever its subscribers do |
| `EventBus.DesktopFlushWritesTwice` | src/event-bus/event-bus.ts:511-519 | A concrete desktop run whose backend receives one published event twice, at publish and again at drain |
| `EventBus.PublishThenFlush` | src/event-bus/event-bus.ts:243-265 | For any desktop bus and any in-memory log, a new event is in the backend exactly once after the next flush if and only if exactly one of its two writes succeeded; a refused event is written by the flush all the same |
| `PromptCache.KeyIsInjective` | src/prompts/prompt-cache.ts:26-32 | For well-formed ids, names without '=', and values without '\|', equal keys mean equal id, version and variable map |
| `PromptCache.KeysAgreeIff` | src/prompts/prompt-cache.ts:26-32 | For well-formed ids, clean variables and a comparison that ranks names, keys are equal if and only if id, version and variable map are, whatever the order in which variables were given |
| `PromptCache.KeyOfTwo` | src/prompts/prompt-cache.ts:26-32 | What the key of two variables looks like, character by character |
| `PromptCache.PipeInValueCollides` | src/prompts/prompt-cache.ts:29-30 | Whatever the names and values, a '\|' and an assignment inside a value give the key of another variable map |
| `PromptCache.EqualsInNameCollides` | src/prompts/prompt-cache.ts:29 | Whatever the names and values, an '=' inside a name gives the key of another variable map |
| `Prelude.SplitAtFirst` | src/prompts/prompt-cache.ts:31 | A separator absent from the left parts lets both sides be read back |
| `PromptCache.SpellingIsInjective` | src/prompts/prompt-cache.ts:29-30 | Clean assignments can be read back from the joined text: a name ends at its first '=', a value at the next '\|' |
| `PromptCache.KeyTellsVariablesIff` | src/prompts/prompt-cache.ts:26-32 | Against all variable maps, a key tells its variables if and only if there are none, or one with no '=' in name or value |
| `PromptCache.OtherReading` | src/prompts/prompt-cache.ts:27-30 | Every other variable map comes with a different one that has the same key |
| `PromptCache.DecimalIsInjective` | src/prompts/prompt-cache.ts:31 | Version numbers written in decimal can be told apart |
| `PromptCache.RecencyIsDistinct` | src/prompts/prompt-cache.ts:35-50 | The recency order names each key used once |
| `PromptCache.HitKeepsRecency` | src/prompts/prompt-cache.ts:40-45 | After a hit the cache holds the most recently used keys in order of use, and no value changed |
| `PromptCache.MissKeepsRecency` | src/prompts/prompt-cache.ts:53-69 | After a miss too: with no room the least recently used key has left and no other |
| `PromptCache.HitIsTouch` | src/prompts/prompt-cache.ts:40-45 | Moving a cached key to the end is what its use does to the recency order of the whole history |
| `PromptCache.MissIsTouch` | src/prompts/prompt-cache.ts:55-62 | Evicting the oldest and adding the new key is what its use does to the most recent part of that order |
| `PromptCache.PromptCache.Get` | src/prompts/prompt-cache.ts:35-50 | A hit returns the value and moves its entry to the end; a miss changes the miss count and nothing else |
| `PromptCache.PromptCache.Set` | src/prompts/prompt-cache.ts:53-69 | A full cache loses its oldest entry first; the key is then added at the end or updated in place |
| `PromptManager.PromptManager.Render` | src/prompts/prompt-manager.ts:194-226 | Serves from the cache or renders, and with clean variables the result is what the builder makes of this very template and these variables when the cached prompts of its id and version are its own, as they are in a store of unique versions, and in a settled store whose cached templates can all still be requested |
| `PromptManager.PromptManager.RegisterTemplate` | src/prompts/prompt-manager.ts:53-77 | Stores a well-formed template with a new version, refuses all others, and keeps the store unique or settled and the cached templates reachable |
| `PromptManager.PromptManager.VersionTemplate` | src/prompts/prompt-manager.ts:78-108 | Derives the next version from the one registered last; versions stay unique if and only if that number was free, and a settled store stays settled if and only if that number finds the new template |
| `PromptManager.OneTemplatePerVersion` | src/prompts/prompt-manager.ts:115-117 | With unique versions, id and version pick out one template |
| `PromptManager.AddUnique` | src/prompts/prompt-manager.ts:61-69 | Adding a template keeps versions unique if and only if none of its id has that version |
| `PromptManager.UnambiguousIff` | src/prompts/prompt-manager.ts:110-121 | Any two requests that reach one id and version reach one template if and only if the last template of every id is the one its own number finds |
| `PromptManager.AddSettled` | src/prompts/prompt-manager.ts:61-69 | Adding to a settled store keeps it settled if and only if the new template is the one its number finds afterwards |
| `PromptManager.AddHandsOut` | src/prompts/prompt-manager.ts:103 | What a settled store hands out can still be requested after any addition |
| `PromptRuns.AlwaysRightIff` | src/prompts/prompt-manager.ts:194-226 | Over the stores of a run, every request with clean variables in every schedule gets the right text for every builder, cache size and order of names, if and only if in each of these stores the last template of every id is the one its own number finds |
| `PromptRuns.SettledStoresAgree` | src/prompts/prompt-manager.ts:110-121 | While every store is settled, templates handed out with one id and version are one template, however far apart the requests |
| `PromptRuns.CacheHoldsRightTexts` | src/prompts/prompt-manager.ts:210-225 | While what is handed out agrees, every answer is right and every cached text was right for a request with its key |
| `PromptRuns.StaleSchedule` | src/prompts/prompt-manager.ts:199-226 | In a store that is not settled, asking by number and then for the last template gets a wrong text |
| `PromptRuns.HistoryGrows` | src/prompts/prompt-manager.ts:66-69 | Registering or versioning a template takes a run one store further |
| `PromptManager.HitIsRight` | src/prompts/prompt-manager.ts:211-216 | A cached prompt found under a clean key is the builder's answer for the template asked for |
| `PromptManager.RenderHit` | src/prompts/prompt-manager.ts:212-216 | A hit keeps the cache's recency order and the provenance of its prompts |
| `PromptManager.RenderMiss` | src/prompts/prompt-manager.ts:218-225 | A miss stores a prompt with its provenance and keeps the recency order |
| `PromptManager.VersionTwice` | src/prompts/prompt-manager.ts:91-103 | Registering versions out of order and then deriving one makes two templates of one version |
| `PromptManager.StaleVersionServed` | src/prompts/prompt-manager.ts:211-216 | From there a prompt cached for one of them is served for the other |
| `PromptManager.OldTextServedLater` | src/prompts/prompt-manager.ts:199-226 | A prompt handed out while two templates shared its version is served for the other one later, in a store that has become settled again |
| `PromptManager.RenderTwice` | src/prompts/prompt-manager.ts:199-226 | For any store and builder, two requests in a row for one version of an id, by number or for the last one, get the same text; unless the key was cached before, the second is right if and only if the builder makes the same of both templates |
| `ArtifactVersioning.ComputeLineDiff` | src/artifact/artifact-versioning.ts:179-222 | The hunks are non-empty, ordered, never adjacent, and cover exactly the positions where the files differ |
| `ArtifactVersioning.DiffIsUnique` | src/artifact/artifact-versioning.ts:179-222 | Only one list of hunks fits that description |
| `ArtifactVersioning.CoverDecides` | src/artifact/artifact-versioning.ts:179-222 | Separated hunk lists that cover the same positions are equal |
| `ArtifactVersioning.NoHunksIffEqual` | src/artifact/artifact-versioning.ts:171-172 | There are no hunks exactly when the files are equal |
| `ArtifactVersioning.PatchGivesNew` | src/artifact/artifact-versioning.ts:179-222 | Replacing the covered positions of the old file by the new lines gives the new file |
| `ArtifactVersioning.WalkChain` | src/artifact/artifact-versioning.ts:79-108 | Nothing for an unknown id; otherwise, on any store, cyclic ones included, the root-first list of the climb to the last artifact not met before |
| `ArtifactVersioning.ChainIsUnique` | src/artifact/artifact-versioning.ts:79-108 | There is one such chain for an id |
| `ArtifactVersioning.EndedClimbIsUnique` | src/artifact/artifact-versioning.ts:87-95 | A climb that can go no further is determined by where it starts |
| `ArtifactVersioning.WalkRecoversHistory` | src/artifact/artifact-versioning.ts:54-108 | Round trip: walking from the newest version of a stored history gives back the whole history, root first |
| `ArtifactVersioning.NextVersionExtends` | src/artifact/artifact-versioning.ts:54-73 | Deriving a version from the last of a history gives a longer history |
| `ArtifactVersioning.NextVersionIsUnverified` | src/artifact/artifact-versioning.ts:60-69 | A new version has the given id and content and starts unverified: appending it leaves the latest verified version where it was |
| `ArtifactVersioning.VersionsCount` | src/artifact/artifact-versioning.ts:62-63 | In a history the versions are 1, 2, 3 and so on |
| `ArtifactVersioning.GetLatestVerified` | src/artifact/artifact-versioning.ts:135-150 | Returns the last passed version of the chain, and nothing exactly when there is none |
| `ArtifactVersioning.ValidateChain` | src/artifact/artifact-versioning.ts:241-277 | Valid exactly when the walked versions are 1, 2, 3 and so on; the cycle check can never report anything |
| `ArtifactVersioning.HistoryIsValid` | src/artifact/artifact-versioning.ts:241-277 | A stored history made by versioning passes the check |
| `ArtifactVersioning.PassesAsHistoryIff` | src/artifact/artifact-versioning.ts:241-277 | In a store keyed by its own ids, the stored histories are exactly the chains that pass the check and whose oldest artifact names no parent |
| `ArtifactVersioning.WhyWalksStop` | src/artifact/artifact-versioning.ts:87-95 | A walk's oldest artifact names a stored parent exactly when the chain loops; otherwise it names none or one that is missing |
| `ArtifactVersioning.LoopPasses` | src/artifact/artifact-versioning.ts:241-277 | The failing input: two artifacts that derive from each other, with versions 1 and 2, pass the check |
| `Chunker.ChunkText` | src/memory/chunker.ts:29-59 | Nothing for blank text, the trimmed text when it is short or one sentence, and otherwise the chunks of the one plan that fits the sentences |
| `Chunker.PlanIsUnique` | src/memory/chunker.ts:44-57 | The token rule leaves no freedom in how sentences are grouped and what is carried over |
| `Chunker.PlanUsesAll` | src/memory/chunker.ts:44-57 | The own sentences of the chunks, in order, are the sentences: none lost, none repeated |
| `Chunker.OwnTextsSpellSentences` | src/memory/chunker.ts:44-57 | The own texts joined by spaces equal the sentences joined by spaces |
| `Chunker.ChunkShape` | src/memory/chunker.ts:46-50 | A chunk is its own text behind a left-trimmed end of the previous chunk's own text, and with k of at least two own sentences has at most 880 + k - 1 characters |
| `Chunker.LongSentenceExceedsTarget` | src/memory/chunker.ts:23-28 | A sentence over the target makes a chunk over the target, whatever its neighbours, so the documented cap does not hold |
| `Chunker.OverlapKeptIff` | src/memory/chunker.ts:50 | A chunk hands over the documented 40 tokens if and only if its own text has as many; otherwise it hands over just its own text |
| `Chunker.ShortSentenceCarriesLittle` | src/memory/chunker.ts:50 | The failing input: a short sentence between two that fill the target is all the overlap the last chunk gets |
| `Chunker.OverTargetIff` | src/memory/chunker.ts:11-13 | A chunk is over the target if and only if what is left of its overlap and its own text have more than 880 characters together; for one own sentence that is overlap plus sentence |
| `Chunker.TokensAreQuarters` | src/memory/chunker.ts:11-13 | k tokens are more than 4(k - 1) and at most 4k characters |
| `Chunker.TrimIs` | src/memory/chunker.ts:30 | Trimming takes all white space off both ends and nothing else |
| `Chunker.CarryBounded` | src/memory/chunker.ts:50 | At most 199 characters are carried to the next chunk |
| `Chunker.EveryChunkBounded` | src/memory/chunker.ts:44-57 | A chunk of several own sentences has at most 1099 characters, one of a single sentence at most 199 more than the sentence |
| `Chunker.SafeTextKeepsTarget` | src/memory/chunker.ts:24-28 | No chunk is over the target when every sentence has at most 720 characters and no multiple of four up to 440 |
| `Chunker.SafeLengthsAreAll` | src/memory/chunker.ts:24-28 | No other length can be allowed: a length is safe together with the safe ones if and only if it is one of them, with a failing text for every other length |
| `Chunker.LastPartGrows` | src/memory/chunker.ts:53-54 | A sentence that fits joins the open part of a plan |
| `Chunker.NewPartStarts` | src/memory/chunker.ts:46-54 | A sentence that does not fit opens a new part that inherits the carried text |
| `EventReplay.ReplayBus.Load` | src/event-bus/event-replay.ts:92-130 | Refuses an empty log; otherwise sorts it to a permutation and reports its gaps exactly |
| `EventReplay.ReplayBus.Play` | src/event-bus/event-replay.ts:151-175 | Delivers everything from the cursor on, event by event to all subscribers, and does nothing without a loaded log |
| `EventReplay.ReplayBus.DeliverToAll` | src/event-bus/event-replay.ts:160-168 | One event goes once to every subscriber it matches, in turn |
| `EventReplay.SortSorts` | src/event-bus/event-replay.ts:101 | The sorted log is ascending and complete in number |
| `EventReplay.SortPermutes` | src/event-bus/event-replay.ts:101 | The sorted log holds the events of the input, each as often |
| `EventReplay.GapsReport` | src/event-bus/event-replay.ts:103-111 | The gap ranges hold exactly the numbers missing between first and last, and are ascending and disjoint when no number repeats |
| `EventReplay.ReportGrows` | src/event-bus/event-replay.ts:105-111 | One more event of an ascending log extends an exact report by its own gap |
| `EventReplay.PartialMeans` | src/event-bus/event-replay.ts:125 | A replay is flagged partial exactly when a number is missing or repeated |
| `EventReplay.EachSeesItsMatches` | src/event-bus/event-replay.ts:155-172 | A subscriber sees exactly the events it matches, each once, in ascending order |
| `EventReplay.TopicMatchesIff` | src/event-bus/event-replay.ts:162-164 | A lone star matches every type, any other first star just goes, and what is left must be a prefix of the type |
| `EventReplay.SubscriptionMatchesIff` | src/event-bus/event-replay.ts:161-165 | A subscription sees an event exactly when one of its topics matches |
| `ArtifactHistory.FindGapsIn` | src/artifact/artifact-history.ts:120-147 | For any records, in any order and with repetitions: the report is exact on a span if and only if the span is not reversed |
| `ArtifactHistory.ArtifactHistory.FindGaps` | src/artifact/artifact-history.ts:120-147 | The same on the object's records |
| `ArtifactHistory.ArtifactHistory.Append` | src/artifact/artifact-history.ts:35-64 | Adds one record at the end with the next number |
| `ArtifactHistory.ArtifactHistory.AppendedHistoryIsDense` | src/artifact/artifact-history.ts:35-64 | In a history that was only appended to, exactly the numbers outside 1..n have no record |
| `ArtifactHistory.NumberFound` | src/artifact/artifact-history.ts:134-140 | Meeting the next number closes the stretch in front of it as one gap or none |
| `ArtifactHistory.SearchEnds` | src/artifact/artifact-history.ts:142-146 | Past the last number the report is complete and exact |
| `ArtifactHistory.NothingFound` | src/artifact/artifact-history.ts:130-132 | An empty span is reported as one gap, which is right exactly when the span is not reversed |
| `ArtifactMerge.ArtifactMerge.Merge` | src/artifact/artifact-merge.ts:108-208 | Succeeds and records a result exactly for an eligible artifact with free paths and every consent; the lock table differs afterwards exactly for an eligible artifact with free paths, at least one, for which some hook throws before any stage refuses |
| `ArtifactMerge.ArtifactMerge.AcquireLocks` | src/artifact/artifact-merge.ts:270-289 | Takes all the paths or, if another merge holds one of them, none |
| `ArtifactMerge.ArtifactMerge.ReleaseLocks` | src/artifact/artifact-merge.ts:294-301 | Frees the paths this merge holds and no others |
| `ArtifactMerge.ArtifactMerge.CheckEligibility` | src/artifact/artifact-merge.ts:214-264 | Valid exactly for a verified, passed, unmerged, unrejected, unexpired artifact of the target workspace |
| `ArtifactMerge.HeldUntilReleased` | src/artifact/artifact-merge.ts:270-301 | Over any interleaving a lock stays with its holder until that holder releases it |
| `ArtifactMerge.LocksWereAcquired` | src/artifact/artifact-merge.ts:270-301 | Over any interleaving a lock present at the end was there at the start or was asked for by its holder |
| `ArtifactMerge.ReleaseUndoesAcquire` | src/artifact/artifact-merge.ts:270-301 | For a merge that held nothing, releasing restores the table an acquisition changed |
| `ArtifactMerge.HolderMayReacquire` | src/artifact/artifact-merge.ts:274-288 | A merge may acquire again what it holds, and nothing changes |
| `ArtifactMerge.SuccessNeedsEveryConsent` | src/artifact/artifact-merge.ts:138-200 | Past the locks a merge succeeds exactly when permission, needed approval and application consent, no conflict is found and the snapshot does not throw |
| `ArtifactMerge.FirstRulingDecides` | src/artifact/artifact-merge.ts:138-200 | Past the locks the merge throws exactly when some hook throws before any stage refuses, and is refused by a stage exactly when that one refuses before any other stops it |
| `ArtifactMerge.ThrowingPermissionThrows` | src/artifact/artifact-merge.ts:142-152 | The failing input for the lock discipline: a permission hook that throws makes the merge throw |
| `ArtifactMerge.LeakRefusesForGood` | src/artifact/artifact-merge.ts:270-301 | A leaked lock makes its path unavailable to every other merge over any interleaving in which the leaking merge releases nothing |
| `ArtifactMerge.ArtifactMerge.MergeAfterLeak` | src/artifact/artifact-merge.ts:108-208 | After a merge that threw, an eligible artifact with a path in common is refused at the lock stage, whatever its hooks would say |
| `ArtifactMerge.EmptySnapshotIsNotRolledBack` | src/artifact/artifact-merge.ts:188-193 | The failing input for rollback: with the empty string as snapshot a failed application is not rolled back, with any other it is |

## Left out

- EventBus.EventBus.EpochLogIsOrdered: speaks of runs without a failed storage write; a failed write loses its batch, which `FlushLog` and `FlushNow` state exactly.
- EventBus.EventBus.Subscribe: does not model the validation of topics and scopes, which are static string checks; a subscriber's filter is a given function.
- EventBus.EventBus.Publish: publishes run one after another; overlapping publishes, which interleave at the awaited writes and handlers, are not modelled.
- Chunker.ChunkText: sentence splitting is a given function that returns trimmed, non-empty sentences.
- ArtifactVersioning.ComputeLineDiff: a hunk is its position and length; its text is not modelled. Its count is the one count the code keeps for both files, also past the end of the shorter.
- PromptManager.PromptManager.VersionTemplate: an update replaces the template's text; the other optional fields are not modelled.
- LiveRegion.AnnouncementCoalescer.Flush: a spoken line is the announcements it covers, the suppressed count and its politeness; the wording is not modelled.
- RefinementLoop.RefinementLoopEngine.Run: what is handed to the executors (drafts, feedback, candidates) and token counts are not modelled; executors answer or fail and do not throw.
- ReplayBus pausing and resuming: delivery is synchronous, so a pause can only come from inside a handler.
- The desktop bridge, browser storage, database adapters, loggers and metrics: reached as parameters that say whether a write succeeded, or not at all.
- React components and hooks, provider calls, embeddings and scores in floating point.
- Static tables (priorities, immediate-flush types, worker state signals): parameters, because they are settled by enumeration.
- Empty artifact identifiers, which the graph search would treat as absent: identifiers are non-empty.
- Replaying handlers, flush callbacks and merge hooks that call back into the same object.
