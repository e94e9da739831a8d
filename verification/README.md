# Kai daemon: verified model

Kai is a resident assistant daemon. One worker runs background workflows by
priority; a conversation server answers turns, keeps a small stack of threads
with decaying salience, surfaces held items, and flushes the session to a memory
server when it ends. This project models the parts of the daemon whose
correctness depends on state that lives over many steps, and proves what holds
in every run.

## What is modelled

- `Engine`, `EngineHistory`, `EngineDispatch`, `EngineStartup`, `EngineDrain`: the
  workflow engine as a step machine (submit, evaluate one startup spec, begin a
  run, finish a run), with a history of events that no branch reads.
  `EngineHistory` says what each step must do, told without the functions that do
  it. `WorkflowEngineObject` has the engine as a class; each method is proved to
  take the step.
- `Preemption`: the preemption context as a protocol between the engine and the
  workflow thread over three events, and the class with those events as fields.
- `ThreadStack`, `ThreadStackBounds`, `ThreadEngagement`, `ThreadLifetimes`,
  `FloatingThreads`, `StableSort`: salience arithmetic, updates in place of stack entries, eviction,
  the cap, states, and bounds over unbounded sessions in which turns fail and
  threads are added.
- `WorkingMemory`, `SessionRecords`, `EpisodicFlush`, `RecordContents`,
  `SessionEnd`, `Assistant`: a
  conversation turn, the end of a session, the flush with any call failing, and
  retries.
- `Sessions`, `SessionOutcomes`: whole runs of the daemon, in which turns may
  overlap the end of a session: which turns survive, what is delivered and
  logged, and what the stacks look like.
- `Registers`, `Holding`, `Discharge`, `Retrieval`, `Threads`, `DaemonSelf`,
  `ToolPermissions`, `Prompt`: register inference, the holding store and the
  choice of the item to surface, merging of search results, the thread store with
  its note index, the versioned document store, nested tool calls with permission
  checks, and the prompt with the split that takes it apart.

Each module states its operations twice: as functions on values, about which the
runs are reasoned, and, where the original changes state, as methods proved
against those functions.

## Assumptions

- Engine steps are atomic. The code is finer: taking an item
  (src/kai_daemon/engine.py:480) and activating it (497-499) are not under one
  lock, nor are reading the prerequisite's lifecycle (347) and joining the
  waiting set (355), nor taking a sequence number and putting the item on the
  queue (298-308).
- A run is an opaque body that succeeds, fails or is cancelled; it is cancelled
  only by `cooperate` on its own context, so only when preempted and in restart
  mode. Run logging succeeds: `WorkflowRunLogger.append` swallows a failed write,
  and the file then lacks the entry the model's log has.
- Condition results, push signals, the order in which a Python set is iterated,
  clocks, generated ids, similarity scores, inferred text and every outside
  failure are parameters of the steps.
- Salience, scores and confidence are exact reals.
- A call to the memory server, the holding file, the self document or the search
  index that raises has written nothing. The self document's write truncates its
  file first (src/kai_daemon/state/daemon_self.py:250), so a write cut off there
  is not covered.
- Failures of the correction log are swallowed, as in the code
  (src/kai_daemon/state/observability.py:132-159): a failing append writes
  nothing, a failing read returns the entries before the failure.
- Turns do not overlap each other, nor do ends of session. A turn may overlap the
  end of a session or the begin of another one at two points: after it has taken
  hold of the working memory and counted itself, and before it is answered. The
  writes of a flush share no state with turns, so they are taken together with
  the snapshot; the clear is a later step.
- The relational update only reads the snapshot it shares with the flush
  (src/kai_daemon/workflows/session_end.py:149-151) and writes elsewhere; it
  appears as its outcome.
- A salience configuration with a recency decay of zero is excluded where an
  exponent could be negative, since the code then divides by zero.

## Where code and documentation disagree

- src/kai_daemon/engine.py:35-41 says the engine re-enqueues a suspended run and
  that it continues after the higher-priority one. The engine never calls
  `resume` or `wait_for_checkpoint`; only cancelled runs are submitted again.
- src/kai_daemon/workflows/episodic_flush.py:18-23 promises that the six steps
  complete or nothing is recorded. `EpisodicFlush.FailsCleanlyIff` says exactly
  which failures leave nothing, and `SessionOutcomes.RecordedOnceIff` exactly when
  a retry records the session twice.
- src/kai_daemon/state/thread_stack.py:76-79 describes floating threads with
  other constants than 92-93; the model has the values of the code. With them the
  salience threshold for floating threads never drops any
  (`FloatingThreads.FloatingLifetime`). The comment at 247 asks for both drop
  conditions; either suffices in the code.
- A turn is counted before anything can fail
  (src/kai_daemon/workflows/personal_assistant.py:742), so a failed turn leaves a
  gap between stack updates, and the turn after it can drop a thread it
  references: `ThreadLifetimes.FailedTurnLosesThread` is such a run,
  `ThreadStackBounds.ReferencedStaysIff` the exact condition. A gap does no harm
  once a later turn has updated the stack.
- src/kai_daemon/state/threads.py:351 says the dormancy date is cleared on leaving
  dormancy; it is kept when a dormant thread is archived.
- Working memory is to be kept until a flush succeeds
  (src/kai_daemon/state/working_memory.py:7-9). Turns are lost all the same when a
  second `begin_session` overwrites it, when a turn is answered between the
  snapshot of a successful flush and the clear, or when it is answered after its
  memory was let go: `Sessions.NoTurnLostIff`. The daemon begins one session per
  process, but ends it in a thread of its own while the conversation server still
  answers (src/kai_daemon/__main__.py:535-553), without a lock:
  `Sessions.OverlappingTurnIsLost`.
- src/kai_daemon/state/register_inference.py:506-512 says every correction is
  appended to the log. With the log out of reach it is acknowledged all the same,
  and only the shadow has it: `Registers.UnwritableLogFallsBehind`,
  `SessionOutcomes.LogGrowsByAcknowledgedIff`.
- src/kai_daemon/__main__.py:125-127 names one assumption of the prompt split;
  `Prompt.RoundTripIff` shows there are two.

## Model

| member | source | states |
|---|---|---|
| EngineDispatch.SubmissionsConserved | src/kai_daemon/engine.py:288-325 | in every run the counter equals queued plus running plus logged runs, the i-th submission has number i, and each submission is in exactly one of the three places, so none is lost or run twice |
| EngineDispatch.DispatchInOrder | src/kai_daemon/engine.py:476-489 | every run starts from the least (priority, sequence) queued; equal priorities start in submission order under any interleaving |
| EngineDispatch.PreemptedIffHigherQueued | src/kai_daemon/engine.py:310-325 | in every reachable state the active context is preempted iff a strictly smaller priority number is queued |
| EngineDispatch.CancelledRunsYield | src/kai_daemon/engine.py:491-539 | the run after a cancelled one has strictly higher priority; cancellations never outnumber submissions by other threads; runs finish in the order they start |
| EngineDispatch.SubmitKeeps | src/kai_daemon/engine.py:288-325 | a submission by another thread, or of the active run by itself, keeps order, conservation and preemption exactness |
| EngineDispatch.HeadIsMinimum | src/kai_daemon/engine.py:168-175 | the first item of the queue comes before all others |
| EngineHistory.StepDoesWhatItShould | src/kai_daemon/engine.py:288-581 | in every enabled step the submissions, skips, starts and ends it adds, the lifecycle of every workflow, the waiting set and the log are those told from the specs, the condition, the prerequisite's lifecycle, the outcome and the push signals |
| EngineHistory.ChainsExactly | src/kai_daemon/engine.py:572-581 | a successful run adds exactly one chained submission, labelled with it, for each registered spec that follows it and whose push signal permits, in registration order; every other step adds none |
| EngineHistory.DismissedIff | src/kai_daemon/engine.py:331-343 | in every run a spec is skipped iff it is a startup spec whose condition was false when it was reached |
| EngineStartup.StartsAfterPrerequisite | src/kai_daemon/engine.py:331-364 | the startup machinery enqueues a spec only after its prerequisite completed, was found not needed, or is unregistered; a starting run came that way or was submitted or chained |
| EngineStartup.StartupEnqueuesOnce | src/kai_daemon/engine.py:331-406 | at most one enqueue per startup spec, none if its condition was false, and between steps no waiting spec has a resolved prerequisite |
| EngineStartup.SkippedIffConditionFalse | src/kai_daemon/engine.py:331-343 | the same of the history the startup results are read from |
| EngineStartup.EveryStartupSpecServed | src/kai_daemon/engine.py:376-406 | with acyclic prerequisites and successful runs, at rest every startup spec whose condition was true was enqueued exactly once, every other one never, and nothing waits |
| EngineStartup.PrereqWaitsToo | src/kai_daemon/engine.py:386-406 | at rest, a spec can only wait for one that waits too |
| EngineStartup.UnblockKeeps | src/kai_daemon/engine.py:386-406 | releasing the waiters of a resolved spec leaves no waiting spec with a resolved prerequisite |
| EngineDrain.WorkerDrains | src/kai_daemon/engine.py:476-581 | with acyclic chaining and no other submitter the worker takes at most twice `RunsLeft` steps, and stops only with an empty queue, whatever the outcomes |
| EngineDrain.SuccessLowers | src/kai_daemon/engine.py:386-406 | a successful run lowers the weighted measure by at least one even while releasing waiters and chaining |
| EngineDrain.CyclicNeverDrains | src/kai_daemon/engine.py:572-581 | one submission of a member of a chaining cycle can keep the worker busy without bound |
| EngineDrain.DrainsIffAcyclic | src/kai_daemon/engine.py:572-581 | chaining is acyclic iff from every reachable state the worker alone has boundedly many steps |
| EngineDrain.RankDecreases | src/kai_daemon/engine.py:572-581 | acyclic chaining has a rank that falls along every chain |
| EngineDrain.WorkerCanStep | src/kai_daemon/engine.py:476-489 | the worker is never stuck while something is queued or running |
| WorkflowEngineObject.WorkflowEngine.Register | src/kai_daemon/engine.py:253-257 | registering keeps the initial state; a name registered twice keeps its place |
| WorkflowEngineObject.WorkflowEngine.Submit | src/kai_daemon/engine.py:288-325 | the method takes the submission step: number, queue place and preemption of a lower-priority run; unknown names change nothing |
| WorkflowEngineObject.WorkflowEngine.EnqueueSpec | src/kai_daemon/engine.py:376-380 | pending, then submitted under its trigger type |
| WorkflowEngineObject.WorkflowEngine.GetLifecycle | src/kai_daemon/engine.py:382-384 | an unregistered workflow counts as not needed |
| WorkflowEngineObject.WorkflowEngine.TakeReleased | src/kai_daemon/engine.py:388-398 | takes out of the waiting set exactly the specs whose prerequisite this is and is resolved, each once |
| WorkflowEngineObject.WorkflowEngine.UnblockWaiters | src/kai_daemon/engine.py:386-406 | enqueues exactly the released specs, in the order found |
| WorkflowEngineObject.WorkflowEngine.EvaluateSpec | src/kai_daemon/engine.py:331-364 | skip, park or enqueue one startup spec, as its condition and prerequisite say; what that must be is `EngineHistory.StepDoesWhatItShould` |
| WorkflowEngineObject.WorkflowEngine.EvaluateNext | src/kai_daemon/engine.py:331-364 | one iteration of the startup loop is one evaluation step |
| WorkflowEngineObject.WorkflowEngine.BeginRun | src/kai_daemon/engine.py:476-504 | takes the first item and activates it with a fresh context |
| WorkflowEngineObject.WorkflowEngine.FireChainedTriggers | src/kai_daemon/engine.py:572-581 | submits every spec chained after the completed one whose push signal permits, in registration order |
| WorkflowEngineObject.WorkflowEngine.FinishRun | src/kai_daemon/engine.py:521-570 | resubmission if cancelled, then context, lifecycle, log, and on success waiters and chaining, with the push signals it was given |
| WorkflowEngineObject.WorkflowEngine.RunNext | src/kai_daemon/engine.py:491-570 | one whole run is a begin step and a finish step with the status its body ended with and the push signals given |
| WorkflowEngineObject.WorkflowEngine.WorkerDrain | src/kai_daemon/engine.py:476-489 | with acyclic chaining and no other submitter the worker loop ends with an empty queue, every run ending as its body did |
| Preemption.HandshakeAlternates | src/kai_daemon/workflows/preemption.py:116-164 | in every interleaving returned checkpoints and rollbacks alternate, a rollback follows a resume and its own checkpoint, checkpoint-done means one returned, and restart mode calls neither |
| Preemption.CallsAlternateIffNoRetry | src/kai_daemon/workflows/preemption.py:150-164 | all calls alternate iff no checkpoint that raised was followed by another call |
| Preemption.EveryCallAnswers | src/kai_daemon/workflows/preemption.py:150-164 | from the preempt request on, every call of cooperate makes a checkpoint in suspend mode and cancels in restart mode, and every wait that ends is followed by a rollback; nothing else calls or cancels |
| Preemption.BlocksOnlyBeforeResume | src/kai_daemon/workflows/preemption.py:108-114 | the workflow blocks only in the wait before the first resume; an early resume still releases it and no later call blocks |
| Preemption.CooperateReturns | src/kai_daemon/workflows/preemption.py:116-164 | a call in progress returns after boundedly many of its own steps whatever the engine does |
| Preemption.PreemptionContext.Preempt | src/kai_daemon/workflows/preemption.py:87-93 | the method is the preempt step |
| Preemption.PreemptionContext.Resume | src/kai_daemon/workflows/preemption.py:108-114 | the method is the resume step |
| Preemption.PreemptionContext.WaitForCheckpoint | src/kai_daemon/workflows/preemption.py:95-106 | reports the checkpoint-done event and changes nothing |
| Preemption.PreemptionContext.EnterCooperate | src/kai_daemon/workflows/preemption.py:150-154 | returns, cancels or goes on to the checkpoint, by event and mode |
| Preemption.PreemptionContext.AfterCheckpoint | src/kai_daemon/workflows/preemption.py:156-161 | only a checkpoint that returned is signalled |
| Preemption.PreemptionContext.AfterWait | src/kai_daemon/workflows/preemption.py:162-164 | the wait is followed by the rollback |
| Preemption.PreemptionContext.CooperateResumed | src/kai_daemon/workflows/preemption.py:116-164 | a call after a resume runs through without blocking and makes exactly a checkpoint and a rollback, or one raising checkpoint |
| ThreadStackBounds.StackInvariant | src/kai_daemon/state/thread_stack.py:174-252 | from an empty stack any turns, turns that fail before updating it, and additions of fresh threads keep at most two distinct entries, exactly one foreground of greatest salience, salience in [0.3, 1] and depth in [0, 1] |
| ThreadStackBounds.LiveUpdate | src/kai_daemon/state/thread_stack.py:126-150 | an update after any number of failed turns leaves a live entry with salience in [0.12, 1], and live again if it is not dropped |
| ThreadStackBounds.ReferencedThreadStays | src/kai_daemon/state/thread_stack.py:205-217 | in every reachable state a referenced thread is not dropped if no turn has failed since the last update, earlier failed turns included, nor within seven turns of its last touch |
| ThreadStackBounds.ReferencedStaysIff | src/kai_daemon/state/thread_stack.py:205-217 | in every reachable state a referenced thread stays iff 0.48 times 0.85 to the power of the turns since its last touch is at least 0.18 less 0.4 times the boosted depth |
| ThreadStackBounds.ReferencedIff | src/kai_daemon/state/thread_stack.py:126-150 | the same condition for one entry, whatever its salience |
| ThreadStackBounds.WithstandsBounds | src/kai_daemon/state/thread_stack.py:82-93 | the condition holds up to seven turns after the last touch, and from depth 0.35 on always; at depth 0 it fails at eight |
| ThreadLifetimes.FailedTurnLosesThread | src/kai_daemon/workflows/personal_assistant.py:742 | a run from the empty stack, with one failed turn, whose next turn drops a thread it references |
| ThreadStackBounds.CapSelectsTopTwo | src/kai_daemon/state/thread_stack.py:219-222 | the cap keeps two entries none of the others exceeds, and only entries that were there |
| ThreadStackBounds.CapPicks | src/kai_daemon/state/thread_stack.py:219-222 | of more than two entries the cap keeps the most salient and the next, in that order, those further up the stack among equals |
| ThreadStackBounds.ForegroundIff | src/kai_daemon/state/thread_stack.py:153-171 | an entry that does not float is foreground iff it is the most salient, or the first of these; nothing but states changes, and floating entries keep theirs |
| ThreadStackBounds.AddDistinctIff | src/kai_daemon/state/thread_stack.py:276-295 | adding keeps ids distinct iff the id is not among the entries that stay |
| ThreadEngagement.UpdateLaw | src/kai_daemon/state/thread_stack.py:126-150 | every entry after an update comes from one before it: depth up by 0.1, or by 0.2 with a change of stance, and at most 1, if referenced, else down by a twentieth; salience by the turns since the touch before and the new depth; touched now iff referenced |
| ThreadEngagement.ReferencesDeepen | src/kai_daemon/state/thread_stack.py:128-134 | in any run in which every update references a thread of depth d, p times without and q times with a change of stance, its depth ends as d + 0.1 p + 0.2 q, but at most 1 |
| ThreadEngagement.StoredSalience | src/kai_daemon/state/thread_stack.py:138-146 | in every reachable state an update stores for each entry it keeps the least of 1 and the formula of the turns since its touch before and the depth stored |
| ThreadEngagement.AddLaw | src/kai_daemon/state/thread_stack.py:276-295 | an added thread stands last with salience 0.5, depth 0, touched and entered now |
| ThreadLifetimes.StaysIff | src/kai_daemon/state/thread_stack.py:205-217 | with other threads added and turns failing, a thread left alone is on the stack iff no addition displaced it and its closed-form salience as of the last update reaches the threshold |
| ThreadLifetimes.IdleLifetime | src/kai_daemon/state/thread_stack.py:205-217 | a thread left alone is there for 6 turns iff no addition displaces it, and gone after 19 turns that updated the stack |
| ThreadLifetimes.LifetimeBounds | src/kai_daemon/state/thread_stack.py:82-93 | 6 and 19 are the best bounds: at depth 0 the 7th turn drops, at depth 1 the 18th does not |
| FloatingThreads.FloatingLifetime | src/kai_daemon/state/thread_stack.py:230-250 | after any updates, with threads added in between, exactly those of all floating threads ever added that were touched within 200 turns of the last update remain, with salience at least 0.3 |
| FloatingThreads.FloatingLaw | src/kai_daemon/state/thread_stack.py:230-243 | every floating entry after an update comes from one before it with a hundredth of its depth gone and its salience by the turns since its touch; nothing else of it changes |
| ThreadStack.UpdateSalience | src/kai_daemon/state/thread_stack.py:103-150 | changes the entry in place to the decayed or boosted value, using the recency from before the touch; with boosts not below zero a reference never lowers a depth of at most 1 |
| ThreadStack.AssignStates | src/kai_daemon/state/thread_stack.py:153-171 | the entry ranked first becomes foreground, other non-floating ones peripheral |
| ThreadStack.UpdateEntries | src/kai_daemon/state/thread_stack.py:205-217 | updates every entry and keeps those at or above the threshold, in order |
| ThreadStack.CapEntries | src/kai_daemon/state/thread_stack.py:219-222 | of more than two keeps the two of top rank |
| ThreadStack.UpdateFloatingEntries | src/kai_daemon/state/thread_stack.py:227-250 | floating entries decay and are dropped by age or salience |
| ThreadStack.UpdateStack | src/kai_daemon/state/thread_stack.py:174-252 | the whole update of both lists, neither reaching into the other |
| ThreadStack.AddThreadToStack | src/kai_daemon/state/thread_stack.py:255-295 | with two or more entries only the top one stays beside the new one, in a new list; otherwise the caller's list is appended to |
| ThreadStack.AddFloatingThread | src/kai_daemon/state/thread_stack.py:298-332 | appends a new floating entry of salience 0.5 to the caller's list |
| StableSort.RankingIsStableSort | src/kai_daemon/state/thread_stack.py:161-171 | the ranking lists every index once in descending order, earlier entries winning ties |
| EpisodicFlush.Flush | src/kai_daemon/workflows/episodic_flush.py:419-596 | with a failure at any call the writes are a prefix of episodes, co-occurrence, handoff, record, index, and a result is returned iff all were written |
| EpisodicFlush.FailsCleanlyIff | src/kai_daemon/workflows/episodic_flush.py:18-23 | a failed attempt leaves nothing iff an episode inference or the first write raised |
| EpisodicFlush.IndexIsLast | src/kai_daemon/workflows/episodic_flush.py:577-596 | index rows are written iff the attempt does not fail |
| EpisodicFlush.StoreAlwaysBacked | src/kai_daemon/workflows/episodic_flush.py:526-582 | over any attempts every record has the handoff note it refers to before it, and a co-occurrence update of that note's session and the same threads; index rows have a record of the same threads whose handoff note is of their session |
| EpisodicFlush.BelongsToOne | src/kai_daemon/state/episodic.py:96-127 | a record carries no session id; the handoff note it refers to determines exactly one session |
| SessionOutcomes.RecordsAreFlushes | src/kai_daemon/workflows/episodic_flush.py:560-582 | over whole runs, with turns between a failed flush and its retry, a session has as many records as flushes that completed or failed at the index only |
| SessionOutcomes.RecordedOnceIff | src/kai_daemon/workflows/episodic_flush.py:560-582 | a session whose flush completed has exactly one record iff no flush of it failed at the index only |
| EpisodicFlush.CompileThreadEpisodes | src/kai_daemon/workflows/episodic_flush.py:229-277 | one episode per thread from that thread's group, nothing if an inference raises |
| EpisodicFlush.WriteEpisodes | src/kai_daemon/workflows/episodic_flush.py:519-521 | writes the episodes in order up to the failing one |
| SessionRecords.GroupNotableTurns | src/kai_daemon/workflows/episodic_flush.py:226-232 | the collecting loops build the dictionary of notable turns by thread, keys in first-seen order |
| SessionRecords.EpisodeIffNotableTurn | src/kai_daemon/workflows/episodic_flush.py:226-234 | a thread has an episode iff it is active in a notable turn |
| SessionRecords.GroupIsTurns | src/kai_daemon/workflows/episodic_flush.py:226-232 | when turns list no thread twice, a group is exactly the thread's notable turns in order |
| SessionOutcomes.EpisodesAreNotableTurns | src/kai_daemon/workflows/episodic_flush.py:226-277 | over whole runs turns list no thread twice, and every stored episode holds exactly the notable turns of its thread in the snapshot flushed |
| SessionRecords.GroupSizesConserved | src/kai_daemon/workflows/episodic_flush.py:226-232 | group sizes sum to the active-thread counts of the notable turns |
| SessionRecords.EpisodesAmongThreads | src/kai_daemon/workflows/episodic_flush.py:351-353 | the thread list of the record holds exactly the threads of the turns, notable or not, so every thread with an episode |
| RecordContents.WritesTell | src/kai_daemon/workflows/episodic_flush.py:527-582 | in whatever a flush writes, co-occurrence update, record and index rows list the threads of all turns and the handoff note those of the notable turns, each once, in the order first seen in the turns; the record tells topics, registers, arc and corrections of the turns |
| RecordContents.CompiledTells | src/kai_daemon/workflows/episodic_flush.py:350-411 | so does the record compiled, whose dominant register is that of most turns, the first inferred on a tie |
| RecordContents.DominantIs | src/kai_daemon/workflows/episodic_flush.py:370-375 | the register is none iff there is no turn, and otherwise has the most turns, counted as a set |
| RecordContents.AnswersInOrder | src/kai_daemon/workflows/episodic_flush.py:229-333 | the k-th thread gets the k-th answer and its notable turns, the handoff note the answer after them; ids within an attempt differ, and the record refers to the handoff note's |
| SessionRecords.ShiftsCountRuns | src/kai_daemon/workflows/episodic_flush.py:377-381 | register shifts plus one is the number of maximal stretches of one register, for any way of cutting the turns into such stretches |
| SessionRecords.MostCommon | src/kai_daemon/workflows/episodic_flush.py:370-375 | the dominant register has the greatest count, the first seen on a tie |
| SessionEnd.RunSessionEnd | src/kai_daemon/workflows/session_end.py:104-210 | success is reported iff the flush completed, independent of the relational update, which changes neither writes nor result; one error per failure |
| Sessions.NoTurnLostIff | src/kai_daemon/workflows/personal_assistant.py:517-661 | over any run with failing flushes, retries, and turns overlapping the end of a session, every answered turn is in current memory or in the snapshot of a complete flush, iff no session begins over unsaved turns, no turn is answered between the snapshot and the clear of a complete flush, and none after its memory was let go |
| Sessions.OneSessionLosesNothing | src/kai_daemon/conversation_server.py:168-188 | in a process that begins one session, if no turn overlaps the end of the session, no event loses a turn |
| Sessions.OverlappingTurnIsLost | src/kai_daemon/__main__.py:535-553 | with one session and nothing failing, a turn answered between snapshot and clear is lost |
| SessionOutcomes.AnsweredTurnsSurvive | src/kai_daemon/workflows/personal_assistant.py:647-661 | with one session and no turn overlapping its end, every answered turn is in memory, or in the arc of a stored record that belongs to its session by its handoff note, with the index rows of the session stored |
| SessionOutcomes.SnapshotStores | src/kai_daemon/workflows/personal_assistant.py:635-647 | the snapshot stores what a flush of the current memory stores, under a fresh number, and leaves all memories alone |
| EpisodicFlush.CompleteFlushRecords | src/kai_daemon/workflows/episodic_flush.py:560-582 | a complete flush stores a record with every turn of the snapshot in its arc, the handoff note of the session it refers to, and the index rows |
| SessionOutcomes.ClearedIffFlushed | src/kai_daemon/workflows/personal_assistant.py:647-661 | in every reachable state working memory becomes empty iff the end of a session clears it after a complete flush, and then every write of the complete record is stored |
| SessionOutcomes.NotesAlwaysSound | src/kai_daemon/workflows/personal_assistant.py:739-977 | in every reachable state the notes of every session are numbered strictly upwards within the turns counted, have a text iff notable, and are no more than the turns |
| SessionOutcomes.TurnsCounted | src/kai_daemon/workflows/personal_assistant.py:738-743 | over whole runs every turn that comes in with a session there and no other turn in progress is counted once, whatever it overlaps and however it ends, and nothing else is |
| SessionOutcomes.DeliveriesSound | src/kai_daemon/workflows/personal_assistant.py:870-912 | over whole runs of the daemon no held item reaches the user twice, and each that did is marked in memory and file |
| SessionOutcomes.HeldItemsRemain | src/kai_daemon/state/holding.py:136-188 | over whole runs no held item is dropped, moved or changed but for its mark, each further one was written, and every item written is there under its id |
| SessionOutcomes.LogGrowsByLogged | src/kai_daemon/state/observability.py:132-159 | over whole runs the log grows by exactly the acknowledged corrections whose append succeeded, and the history is what the last read of it returned |
| SessionOutcomes.LogGrowsByAcknowledgedIff | src/kai_daemon/workflows/personal_assistant.py:934-957 | the log grows by exactly the acknowledged corrections iff the append of none of them failed |
| SessionOutcomes.ShadowHoldsAcknowledged | src/kai_daemon/state/register_inference.py:547-557 | over whole runs the shadow of a session holds exactly the corrections acknowledged in its turns, whatever fails |
| SessionOutcomes.PriorAlwaysConserves | src/kai_daemon/state/register_inference.py:286-300 | so in every reachable state the prior conserves the score total |
| SessionOutcomes.StacksAlwaysSound | src/kai_daemon/workflows/personal_assistant.py:859-866 | with the default constants and fresh threads pushed, the stack invariant holds of every session over whole runs, failing turns included |
| Assistant.TurnCommitsOne | src/kai_daemon/workflows/personal_assistant.py:779-977 | an answered turn appends exactly one note, with its number, the stack before the update, the moved threads, the outcome and its text; a failed one appends none, however far it came |
| Assistant.AnsweredIff | src/kai_daemon/workflows/personal_assistant.py:779-931 | a turn is answered unless a call it makes raises: scoring only if something is unsurfaced, saving only if an item is due, the note only if the turn is notable |
| Assistant.TurnRecords | src/kai_daemon/workflows/personal_assistant.py:819-866 | once the response is there, whatever fails later, the pending artifacts are among those of the session and the floating threads are updated; before that nothing has changed |
| Assistant.AppendsNew | src/kai_daemon/workflows/personal_assistant.py:819-823 | appending keeps what is listed, adds exactly the missing ones and repeats none |
| Assistant.TurnRecordsContradiction | src/kai_daemon/workflows/personal_assistant.py:903-904 | the id of a marked item that points to a contradiction is recorded, also when the turn then fails |
| Assistant.TurnUpdatesStack | src/kai_daemon/workflows/personal_assistant.py:859-866 | the stack is updated once the response is there, even if the turn then fails |
| Assistant.TurnLogs | src/kai_daemon/workflows/personal_assistant.py:934-957 | an acknowledged correction enters the shadow, and the log unless its append fails, which does not fail the turn; the history is what can then be read |
| Assistant.TurnIsDischargeStep | src/kai_daemon/workflows/personal_assistant.py:870-931 | a turn that looks for an item takes exactly one step of the discharge history, delivering what its answer delivers; any other leaves the held items alone |
| Assistant.Movements | src/kai_daemon/workflows/personal_assistant.py:156-189 | exactly the stack's threads whose epistemic status differs between the two moments |
| Assistant.DetectStanceMovements | src/kai_daemon/workflows/personal_assistant.py:180-189 | the loop finds them in stack order |
| Assistant.AddPending | src/kai_daemon/workflows/personal_assistant.py:819-823 | pending artifacts are added once each |
| Assistant.PersonalAssistant.BeginSession | src/kai_daemon/workflows/personal_assistant.py:568-580 | a new empty memory object whatever was there |
| Assistant.PersonalAssistant.FlushSession | src/kai_daemon/workflows/personal_assistant.py:635-647 | writes what the flush of the memory as it is now writes, and clears nothing |
| Assistant.PersonalAssistant.ClearIfFlushed | src/kai_daemon/workflows/personal_assistant.py:649-661 | clears whatever memory is current iff the flush succeeded |
| Assistant.PersonalAssistant.EndSession | src/kai_daemon/workflows/personal_assistant.py:635-661 | both halves with no turn in between; without a session it does nothing |
| Assistant.PersonalAssistant.StartTurn | src/kai_daemon/workflows/personal_assistant.py:738-743 | takes hold of the memory object and counts the turn |
| Assistant.PersonalAssistant.AnswerTurn | src/kai_daemon/workflows/personal_assistant.py:779-987 | the rest of a turn with its exits, on the memory object it took hold of |
| Assistant.PersonalAssistant.HandleTurn | src/kai_daemon/workflows/personal_assistant.py:736-987 | the whole turn with its exits: what each leaves in memory, held items, log and history |
| Assistant.PersonalAssistant.DischargeAndFinish | src/kai_daemon/workflows/personal_assistant.py:870-931 | the discharge check and the note |
| Assistant.PersonalAssistant.FinishTurn | src/kai_daemon/workflows/personal_assistant.py:934-977 | the correction pathway and the commit |
| Prompt.RoundTripIff | src/kai_daemon/__main__.py:123-134 | splitting the printed prompt gives back system text and message iff the system text has no user marker and the message no response marker |
| Prompt.SplitGivesBack | src/kai_daemon/__main__.py:126-134 | without a user marker in the system text the split is exact up to the first response marker of the message |
| Prompt.SplitCutsSystem | src/kai_daemon/__main__.py:128-129 | a user marker in the system text cuts it there |
| Prompt.TakenWholeIff | src/kai_daemon/__main__.py:124-136 | a prompt is taken whole iff it lacks one of the markers |
| Prompt.MarkersBorderFree | src/kai_daemon/workflows/personal_assistant.py:77-78 | neither marker overlaps itself |
| Prompt.BeforeSeparator | src/kai_daemon/__main__.py:128-130 | splitting at a separator without border never finds one straddling the boundary |
| Prompt.FindFrom | src/kai_daemon/__main__.py:128-130 | the first occurrence, if there is one |
| ToolPermissions.LogIsPostOrder | src/kai_daemon/sdk.py:250-319 | over any nesting of calls and handlers the entries asked for are the calls in post-order except those left by a permission error, and a body runs iff its tool is allowed |
| ToolPermissions.EveryCallAccounted | src/kai_daemon/sdk.py:281-317 | calls and entries differ by exactly the calls left by a permission error |
| ToolPermissions.StoredOneByOne | src/kai_daemon/sdk.py:281-317 | of the entries asked for, in order, just those are missing from the log whose own append failed |
| ToolPermissions.TransparentOutside | src/kai_daemon/sdk.py:252-255 | outside a workflow the decorator changes and logs nothing |
| ToolPermissions.AllowedEndsTheSame | src/kai_daemon/sdk.py:257-317 | with all tools allowed a body ends as it would undecorated |
| ToolPermissions.Runtime.CallTool | src/kai_daemon/sdk.py:250-319 | the wrapper step by step, failing appends swallowed |
| ToolPermissions.Runtime.Execute | src/kai_daemon/sdk.py:250-319 | a body with nested calls ends and logs as the specification says |
| ToolPermissions.Runtime.RunWorkflow | src/kai_daemon/engine.py:510-535 | the context after a run is the one from before on every outcome; the status says how the body ended |
| Registers.ApplyHistoryPrior | src/kai_daemon/state/register_inference.py:286-300 | the loop gives base plus 0.15 times (corrections to minus from) over the last 20 |
| Registers.OnlyLastTwentyCount | src/kai_daemon/state/register_inference.py:286-300 | the prior depends on nothing but the last twenty corrections |
| Registers.EachCorrectionCounts | src/kai_daemon/state/register_inference.py:286-300 | up to twenty each correction adds 0.15 to its target and takes 0.15 off its source |
| Registers.PriorConservesIff | src/kai_daemon/state/register_inference.py:286-300 | the score total is conserved iff as many recent corrections have a valid target as a valid source; no score moves by more than 3 |
| Registers.ChooseRegister | src/kai_daemon/state/register_inference.py:386-404 | the first greatest score wins with confidence in [0.25, 0.95] iff some score is positive, else casual at 0.1 |
| Registers.InferRegister | src/kai_daemon/state/register_inference.py:344-404 | the whole inference from features to register |
| Registers.PlainMessageScores | src/kai_daemon/state/register_inference.py:344-376 | a message of twenty to fifty words without marks or timing scores by its keywords alone |
| Registers.EveryMarkCounts | src/kai_daemon/state/register_inference.py:362-367 | an exclamation adds 0.3 to urgent, a question of fewer than twenty words 0.3 to exploratory, and neither anything else |
| Registers.LengthCounts | src/kai_daemon/state/register_inference.py:356-361 | fewer than five words add 0.5 to casual, more than fifty 0.5 to reflective, and nothing else |
| Registers.TimingCounts | src/kai_daemon/state/register_inference.py:369-376 | under four seconds add 0.3 to casual, over ninety 0.5 to reflective, and nothing else |
| Registers.RepeatedCorrectionsWin | src/kai_daemon/state/register_inference.py:286-300 | whatever came before, twenty equal corrections at the end turn the choice away from a register less than six points ahead |
| Registers.ApplyCorrection | src/kai_daemon/state/register_inference.py:538-557 | invalid registers change nothing; otherwise the shadow gains the correction, and the log too unless its append fails |
| Registers.InferenceLogger.ReadAll | src/kai_daemon/state/observability.py:141-159 | a read returns all entries, or those before the failure |
| Registers.SessionCorrections | src/kai_daemon/state/register_inference.py:538-557 | over any signals the shadow holds every valid correction and the log grows by those whose append succeeded; both stay valid, so the prior conserves the total |
| Registers.LogGrowsByShadowIff | src/kai_daemon/state/register_inference.py:547-557 | the log grows by exactly the shadow iff no append of an acknowledged correction failed |
| Registers.UnwritableLogFallsBehind | src/kai_daemon/state/observability.py:132-138 | one valid signal with the log out of reach: acknowledged, in the shadow, not in the log |
| Holding.HoldingStore.Write | src/kai_daemon/state/holding.py:136-149 | a duplicate id is refused; a failed save leaves the item in memory only |
| Holding.WriteLaw | src/kai_daemon/state/holding.py:136-149 | a write is refused iff the id is there; otherwise the item comes last in memory, and in the file unless the save fails |
| Holding.HoldingStore.ListUnsurfaced | src/kai_daemon/state/holding.py:161-163 | the unsurfaced items in insertion order |
| Holding.HoldingStore.Discharge | src/kai_daemon/state/holding.py:169-188 | marks an unsurfaced item; missing and already marked ones are refused |
| Holding.HoldingStore.constructor | src/kai_daemon/state/holding.py:112-126 | loading gives the items of the file in order |
| Holding.MarkedSurfaces | src/kai_daemon/state/holding.py:169-188 | a discharge marks that item and keeps every other mark |
| Discharge.SelectDischargeCandidate | src/kai_daemon/state/discharge.py:132-158 | the loop returns the selected item |
| Discharge.Selected | src/kai_daemon/state/discharge.py:132-158 | the first eligible item of greatest score, none iff none is eligible |
| Discharge.FirstBestUnique | src/kai_daemon/state/discharge.py:108-109 | there is only one such item |
| Discharge.SelectionGates | src/kai_daemon/state/discharge.py:132-158 | what is selected is unsurfaced, above the threshold, fits the register and is no disagreement when urgent; whenever an item passes these gates one of no lower score is selected |
| Discharge.DeliveredAtMostOnce | src/kai_daemon/workflows/personal_assistant.py:870-912 | over any turns, writes, restarts and failures no item reaches the user twice, and what did is marked in memory and file |
| Discharge.SavedItemsStay | src/kai_daemon/state/holding.py:121-149 | an item in the file stays there and in memory over any turns, writes, failures and restarts |
| Discharge.TurnDeliversFirstBest | src/kai_daemon/workflows/personal_assistant.py:874-912 | a turn delivers at most the first-best eligible item, no disagreement when urgent, and marks without delivering iff the save or a later step fails |
| Retrieval.Merge | src/kai_daemon/state/retrieval.py:170-226 | distinct documents covering exactly both inputs, each with its best result (a secondary one only if it scores higher), scores non-increasing, ties in first-seen order |
| Retrieval.LookupIsBest | src/kai_daemon/state/retrieval.py:200-224 | the kept result is the last primary one, or the first weighted secondary one that scores higher than it and no lower than the other secondary ones |
| Retrieval.PartitionPending | src/kai_daemon/state/retrieval.py:234-268 | ready and pending results woven together give the input |
| Threads.DatesCoherent | src/kai_daemon/state/threads.py:354-376 | threads created coherent have a dormancy date iff dormant or archived, in every state |
| Threads.TransitionLaw | src/kai_daemon/state/threads.py:340-376 | a transition is done iff the lifecycle has it; then status, touch and dormancy date are the new ones and notes, perspectives and all other threads unchanged |
| Threads.WholeLifecycle | src/kai_daemon/state/threads.py:71-76 | a nascent thread can be brought through the whole lifecycle, resurfacing included, and leaves archived no more |
| Threads.HistoryOnlyGrows | src/kai_daemon/state/threads.py:71-76 | notes and perspectives only grow, archived is final, nothing returns to nascent, no thread disappears |
| Threads.AdditionLaw | src/kai_daemon/state/threads.py:382-418 | adding a note or perspective appends it, touches the thread and changes nothing else |
| Threads.CreationLaw | src/kai_daemon/state/threads.py:292-302 | a thread is stored as given unless its id is taken, and then nothing changes |
| Threads.ArchivedThroughDormant | src/kai_daemon/state/threads.py:71-76 | a thread is archived only by way of dormant |
| Threads.IndexNeverWrong | src/kai_daemon/state/threads.py:401-418 | under any failed index writes each document is the note its id names |
| Threads.IndexedIffWriteSucceeded | src/kai_daemon/state/threads.py:269-286 | with threads created without notes a note is indexed iff its own write did not fail |
| Threads.DocIdInjective | src/kai_daemon/state/threads.py:277 | document ids determine thread and note number, whatever the thread id contains |
| Threads.QualityOnlyFilled | src/kai_daemon/state/threads.py:424-459 | a time gap quality was put there by the filling operation |
| Threads.PickupIsLastWritten | src/kai_daemon/state/threads.py:424-460 | a pickup note says what the last accepted write of it said, with the quality filled in last since then, and none if nothing filled it |
| Threads.PickupLaw | src/kai_daemon/state/threads.py:424-460 | a write with a quality is refused, one without is done iff the thread is there; a fill is done iff the note is there; other notes are unaffected |
| Threads.ThreadStore.CreateThread | src/kai_daemon/state/threads.py:292-302 | an existing id is refused |
| Threads.ThreadStore.DoTransition | src/kai_daemon/state/threads.py:340-376 | only table transitions change the thread; the date follows |
| Threads.ThreadStore.AddThePerspective | src/kai_daemon/state/threads.py:382-395 | appends one perspective |
| Threads.ThreadStore.AddNote | src/kai_daemon/state/threads.py:401-418 | appends one note and indexes it under its number unless that write fails |
| Threads.ThreadStore.WritePickup | src/kai_daemon/state/threads.py:424-442 | refuses a note with a quality or without a thread |
| Threads.ThreadStore.FillQuality | src/kai_daemon/state/threads.py:451-460 | sets the quality of an existing note |
| DaemonSelf.HistoryIsEveryOlderVersion | src/kai_daemon/state/daemon_self.py:222-247 | after n writes the current version is n and the history is exactly versions 1 to n-1 in order |
| DaemonSelf.TextsKept | src/kai_daemon/state/daemon_self.py:222-250 | over any run the documents written hold the texts given, in order, and the current one is the last of them |
| DaemonSelf.NumberedOneByOne | src/kai_daemon/state/daemon_self.py:222-247 | with failing writes interleaved the archive still holds every older version under its number |
| DaemonSelf.ArchiveNeverChanges | src/kai_daemon/state/daemon_self.py:242-247 | with reseeds interleaved no archived version ever changes |
| DaemonSelf.HistoryListsArchive | src/kai_daemon/state/daemon_self.py:270-276 | the history is exactly the archive in ascending order |
| DaemonSelf.NothingLostIff | src/kai_daemon/__main__.py:502-509 | every written version stays available iff no reseed deleted an unarchived one and no write met its number taken |
| DaemonSelf.DaemonSelfStore.WriteVersion | src/kai_daemon/state/daemon_self.py:211-266 | numbers, archives and replaces; a failure at the last step leaves the current version |
| DaemonSelf.DaemonSelfStore.ForceReseed | src/kai_daemon/__main__.py:502-509 | deletes the current version and touches no archive file |

## Left out

- Cron scheduling and the random window: depend on wall-clock time; a cron firing is a submission by another thread.
- `BaseException` in a run or a tool body, and engine shutdown: end the worker or the process.
- Engine steps finer than the four above: see Assumptions.
- Suspended runs: the engine hands no context to a run and never resumes one, so nothing is claimed about their continuation.
- Floating-point rounding: salience, scores and confidence are exact reals.
- WorkflowEngineObject.WorkflowEngine.RunNext: a run with nothing else in between, which cannot be cancelled since nothing can preempt it; `WorkflowEngineObject.WorkflowEngine.FinishRun` has all three outcomes.
- Preemption.PreemptionContext.WaitForCheckpoint: the timed wait has no state of its own, so only what it reports at its end is modelled.
- Assistant.PersonalAssistant.HandleTurn: keeps the thread stack as values instead of shared entry objects, so aliasing between two holders of an entry is not captured there; `ThreadStack` has the updates in place. It takes the inferred register, topics, retrieval results and scores as inputs.
- Assistant.PersonalAssistant.EndSession: has no turn between its halves; `Sessions` has the interleavings.
- Assistant.PersonalAssistant.DischargeAndFinish: leaves out the contradiction record fetched before an item is surfaced, an outside call without effect on the state modelled.
- SessionEnd.RunSessionEnd: the relational update is its outcome; the two workflows run one after the other, which their shared read-only snapshot does not tell apart.
- Registers.InferRegister: takes keyword counts and the form of the message instead of its text.
- Registers.ApplyCorrection: leaves out the acknowledgment text and the thread id of the entry, and lines of the log that do not parse.
- DaemonSelf.DaemonSelfStore.WriteVersion: leaves out the embedding, whose failure is only warned about, and truncation.
- EpisodicFlush.CompileThreadEpisodes: keeps the model's answer as one text; parsing its labelled sections and the derived stance line is free-form text handling.
- EpisodicFlush.Flush: a call that raises has written nothing; a write that lands and then raises is not modelled.
- Embeddings: failures are caught and change only an optional id.
- Retrieval queries and the choice of spaces: only the merge and the partition are modelled.
- `ThreadStore.update`: overwrites arbitrarily, so no lifecycle or index property survives it.
- Two holding stores over one file: the code assumes a single writer.
- Validation of holding items and perspectives on construction, and forced surfacing by age.
- Threads.ThreadStore.CreateThread: the index of central questions is not modelled.
- Token budgets and truncation of the self document: depend on a tokenizer.
- `DaemonRelationalStore`: repeats the versioning of `DaemonSelfStore`.
- Scratch, borderline, aesthetic, push-history, pollination and metrics stores: single-flag machines.
- HTTP servers, argument parsing, signals, tokenizer, database and file encodings: plumbing or foreign code.
