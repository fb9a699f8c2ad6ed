# saga-agents: a verified model

saga-agents runs agents when events, schedules or HTTP calls trigger them.  This project models the parts
of it that hold state or read text, and proves what they promise.

- **The run executor** (`RunSteps`, `RunSystem`, `RunSafety`, `RunDrain`, `RunOverlap`, `RunExecutor`).  Any number
  of executor processes share a Redis server and a clock (in milliseconds).  A task is one suspended `submit`
  coroutine; a step is the code between two of its awaits.  Requests to Redis travel on a wire: they are served
  after their sender was cancelled or crashed, or never.  Every theorem quantifies over all interleavings of
  steps, crashes, restarts, lost requests and clock advances.
- **The debounced listener** (`Debounce`, `RedisListener`, `Spacing`).  The gates are a machine over a trace of
  messages and checks; the specification reads the trace only and never mentions a gate.  The classes follow the
  source, including messages that arrive while a `submit` is awaited; they record their trace in ghost state, so their
  contracts speak of the specification alone.
- **Proposals** (`Timestamps`, `ProposalStore`, `ApprovalPipeline`, `OneShot`, `CallBound`, `ProposalApi`, `AgentRunner`).
  Runs, with the guidance fetch that precedes them, the table, and the approve and reject handlers are one system in
  which a handler's read, its MCP call, the commit of its write and the counter increment are separate steps.
  `OneShot` restricts it to handlers of one proposal that do not overlap and whose writes are committed; `CallBound`
  drops both assumptions and says exactly when a proposal can still be called, and called twice.  The store orders by
  text; `Timestamps` proves that this is the order in time.
- **Scanners and the cache** (`Scanner`, `EnvTemplate`, `Placeholders`, `GuidanceProvider`).  Both regular
  expressions share one leftmost scan; each pattern's reader is proved to find a token exactly where the text begins
  with a printed one.  The cache is a machine over the looks and fetches of any number of overlapping callers.
- **Agent files** (`Frontmatter`): the split at the fences, `str.strip`, and the loading loop.
- `Basics` and `Sizes` hold the shared wrapper types and facts about finite sets.

Modelling choices.  Semaphores are counters, and whichever waiter is resumed next is any waiter.  Lock tokens and
row, run and process ids are distinct identities where the source draws uuid4 hex strings.  Debounce and cache
times are reals (rounding of floats is not modelled); Redis times are whole milliseconds.  A single SQL statement, `SET
NX EX` and the Lua script are atomic, and JSON arguments survive being stored and read back.  What awaited calls
give back (the agent's outcome, the tool's answer, the clock readings, drawn ids, raised errors) enters as
parameters, and every theorem holds for all of them.

Where the code and its own documentation differ, the model follows the code:

- `AgentRunner.run` says that it never raises.  Building the model, the toolset and the agent, and prompt errors other
  than a GuidanceFetchError, stand outside its `try`: it raises if and only if one of those stages does
  (`AgentRunner.RunRaisesIff`, with an input in `AgentRunner.RunCanRaise`).
- Agents are meant to reach only the tools they list, and no write tool in proposal mode.  The guidance provider
  calls `get_store_guidance` on a server of its own that no filter wraps, so a run calls that tool, listed or not,
  whenever its prompt has a placeholder and the cache is stale.  `ApprovalPipeline.ToolsOfRun` is the exact set of tools a
  run can call, and `ApprovalPipeline.DeduplicatorCallsUnlistedTool` a shipped agent that calls one it does not list.
- The lock is described as cross-process deduplication.  It stops excluding others after `timeout_seconds`, while
  prompt resolution and persistence are not covered by the run's timeout: runs of one agent can overlap, by
  exactly as much as `RunSafety.OverlapBound` allows and `RunOverlap.BoundAttained` attains.  While it is in force it
  also admits only one run of an agent whatever `max_concurrent_runs` says.
- The handlers suggest that a proposal is applied once.  Two approve requests that overlap call the server twice
  (`CallBound.OverlapCallsTwice`), and so do two that do not, if the first one's write is lost
  (`CallBound.LostWriteCallsTwice`).  `CallBound.CallableTwiceIff` is the exact condition.
- `AGENT_PROPOSALS` is incremented after the connection has been closed.  A handler that is cut between its commit
  and that increment leaves a decided row uncounted (`CallBound.CutLeavesUncounted`); the counter is exact if and only if
  there is no such handler (`ApprovalPipeline.CounterExactIff`).
- A failed `add` is reported as a proposal that was not persisted.  If it fails after its commit, the row is there: what
  is stored is what was added if and only if no `add` raises that late (`AgentRunner.StoredIffAdded`).
- The guidance cache is said to fetch once per ttl.  Overlapping callers can each find it stale and fetch
  (`GuidanceProvider.OverlapFetchesTwice`); refreshes are closer than the ttl only if their calls overlap.
- The limits are not validated.  An executor can get stuck if and only if some enabled agent, or the whole executor,
  has a limit of zero (`RunDrain.StuckIffZeroLimit`).
- The tick sleeps five seconds between rounds but awaits each `submit`, so the gap between two checks of a state
  has no fixed bound; the timing theorem takes the gap as a hypothesis.

## Model

| member | source | states |
|---|---|---|
| RunSteps.AdvanceBalanced | src/saga_agents/triggers/executor.py:87-127 | Every step of `submit`, early return, exception and cancellation included, keeps the books: free permits plus holders equal the limit of each semaphore, and the gauge, the run counter and the duration observations equal the tasks that stand for them |
| RunSteps.AdvanceMovesOne | src/saga_agents/triggers/executor.py:61-127 | A step changes its own task and no other |
| RunSteps.Forward | src/saga_agents/triggers/executor.py:87-124 | A coroutine never takes back a SET or a finished run, and with Redis it enters its run only on a granted lock |
| RunSystem.ReachableInv | src/saga_agents/triggers/executor.py:84-124 | In every interleaving of any number of processes the books balance everywhere, requests and answers fit the tasks that sent them, and the live entries of the Redis table are exactly the locks in force |
| RunSafety.RefusedIffHeld | src/saga_agents/triggers/executor.py:89-103 | A SET NX is refused exactly when some lock of that agent is granted, not given back and not expired; so a crashed holder blocks nobody from its expiry on |
| RunSafety.HolderUnique | src/saga_agents/triggers/executor.py:89-103 | Two tokens never hold one agent's lock at once |
| RunSafety.KeyOwnedUntilExpiry | src/saga_agents/triggers/executor.py:22-26 | From grant until expiry or its own delete a token owns its key, across every continuation by all other tasks and processes |
| RunSafety.RunnerOwnsKey | src/saga_agents/triggers/executor.py:89-108 | A running task was granted its lock for timeout_seconds from the grant, has not given it back, and owns the key until then |
| RunSafety.LockLastsTimeout | src/saga_agents/triggers/executor.py:91-96 | The lock of every running Redis task expires exactly 1000 * timeout_seconds milliseconds after its grant |
| RunSafety.SetAsksForTimeout | src/saga_agents/triggers/executor.py:91-96 | Every SET on the wire asks for 1000 * timeout_seconds milliseconds |
| RunSafety.StepSends | src/saga_agents/triggers/executor.py:91-124 | With Redis a task that got its agent permit sends one SET for its agent and its timeout, a task whose run ended, however it ended, sends its compare-and-delete, and nothing else is ever sent |
| RunSafety.RunEndFreesKey | src/saga_agents/triggers/executor.py:118-124 | Once a run has ended and its compare-and-delete is served, its task no longer owns the key |
| RunSafety.ExitsMatchAnswers | src/saga_agents/triggers/executor.py:72-106 | In every interleaving a submit is skipped exactly if its agent is unknown or disabled, refused only if Redis refused its own SET, and with Redis in or past its run only if its own SET was granted |
| RunSafety.DeleteEndsOwnLockOnly | src/saga_agents/triggers/executor.py:22-26 | In every reachable state a served compare-and-delete ends its own token's ownership of its key and no other ownership: not that of a task that took the key over after an expiry, and not that of another agent's key |
| RunSafety.OverlapBound | src/saga_agents/triggers/executor.py:84-103 | Runs of one agent in progress over all processes number at most one plus those that have outlived their own lock, whatever max_concurrent_runs is |
| RunOverlap.BoundAttained | src/saga_agents/triggers/executor.py:84-108 | The bound is tight: for every n there is an interleaving with n such runs, n - 1 of which outlived their lock |
| RunSafety.WithinLimits | src/saga_agents/triggers/executor.py:55-59 | In every reachable state and process the runs stay within the global and the agent limit, AGENT_INFLIGHT is the number of running tasks, and the free permits of each semaphore are its limit less the tasks inside the block it guards |
| RunSafety.EverySubmitAccounted | src/saga_agents/triggers/executor.py:72-127 | Submits equal skips, cancelled waits, lock skips, lock errors, submits still before their run's end and closed run windows, and closed windows equal counted runs plus the uncounted ones |
| RunSafety.FinishedRunsCounted | src/saga_agents/triggers/executor.py:105-127 | Busy or idle, the duration observations are the counted runs, the returned ones about to be counted and those a cancellation cut; the last group is empty if and only if nothing was lost |
| RunSafety.OkMeansStatusOk | src/saga_agents/triggers/executor.py:126-127 | The "ok" count of an agent and trigger is the number of finished runs whose report has status OK |
| RunSafety.ErrorMeansNotOk | src/saga_agents/triggers/executor.py:109-127 | The "error" count of an agent and trigger is the number of its runs that ended in another report or an exception and were counted |
| RunSafety.DurationsAreClosedWindows | src/saga_agents/triggers/executor.py:118-119 | An agent's duration observations are its run windows that were opened and closed |
| RunDrain.WorkFalls | src/saga_agents/triggers/executor.py:87-124 | Every step of a process, and every request of it that is served or lost, uses up a measure that nobody else's step raises |
| RunDrain.WorkBounded | src/saga_agents/triggers/executor.py:87-124 | Without new submits a process takes at most that many steps, in every interleaving |
| RunDrain.NeverStuck | src/saga_agents/triggers/executor.py:55-59 | With positive limits an executor that is not idle has a step that needs no cancellation; tasks that hold the global permit while waiting for an agent permit do not deadlock |
| RunDrain.Drains | src/saga_agents/triggers/executor.py:87-124 | From every reachable state such steps lead to idle with all global permits back and the gauge at zero |
| RunDrain.MaximalRunIsDrained | src/saga_agents/triggers/executor.py:55-59 | With positive limits every interleaving that no step can extend without a cancellation has ended: all submits are done, every permit of every semaphore is back, and the gauge is zero |
| RunDrain.IdleHasAllPermits | src/saga_agents/triggers/executor.py:55-59 | An idle executor has every permit of every semaphore back |
| RunDrain.StuckIffZeroLimit | src/saga_agents/triggers/executor.py:55-59 | An executor can get stuck if and only if an enabled agent or the whole executor has a limit of zero |
| RunExecutor.RunExecutor.constructor | src/saga_agents/triggers/executor.py:44-59 | The semaphores start at global_limit and each agent's max_concurrent_runs |
| RunExecutor.RunExecutor.BeginSubmit | src/saga_agents/triggers/executor.py:72-81 | An unknown or disabled agent is skipped; otherwise the task waits for the global semaphore |
| RunExecutor.RunExecutor.EnterGlobal | src/saga_agents/triggers/executor.py:87 | Taking the global permit is the protocol step, and the books stay balanced |
| RunExecutor.RunExecutor.EnterAgent | src/saga_agents/triggers/executor.py:87-95 | Taking the agent permit is the protocol step: on to the lock with Redis, into the run without |
| RunExecutor.RunExecutor.CancelWaiting | src/saga_agents/triggers/executor.py:87 | A cancelled waiter gives back what it holds |
| RunExecutor.RunExecutor.ReceiveLock | src/saga_agents/triggers/executor.py:97-106 | A refused lock releases both permits; a granted one opens the run window |
| RunExecutor.RunExecutor.LoseLock | src/saga_agents/triggers/executor.py:91-96 | A failed SET releases both permits |
| RunExecutor.RunExecutor.EndRun | src/saga_agents/triggers/executor.py:107-124 | However the run ended, the window is closed, observed once, and a raised run counted |
| RunExecutor.RunExecutor.FinishUnlock | src/saga_agents/triggers/executor.py:121-127 | After the unlock a returned report is counted and both permits are released |
| RunExecutor.RunExecutor.CancelUnlock | src/saga_agents/triggers/executor.py:121-124 | A cancellation during the unlock releases both permits and counts no report |
| RunExecutor.Submit | src/saga_agents/triggers/executor.py:61-127 | An uninterrupted submit, on every exit, leaves both semaphores and the gauge as they were and adds exactly the increments of its own exit |
| RunExecutor.BooksFollowTasks | src/saga_agents/triggers/executor.py:105-127 | Balanced books are determined by the tasks, so a task that came and went leaves only its increments |
| RunExecutor.RedisServer.SetNxEx | src/saga_agents/triggers/executor.py:91-96 | Sets the key with its expiry exactly when no unexpired entry is there |
| RunExecutor.RedisServer.CompareAndDelete | src/saga_agents/triggers/executor.py:22-26 | Removes the entry exactly when it is unexpired and holds the caller's token |
| RunExecutor.ServeRequest | src/saga_agents/triggers/executor.py:91-124 | The server object changes its table as the protocol's server does |
| Debounce.DispatchIffQuiet | src/saga_agents/triggers/redis_listener.py:62-75 | For every interleaving of messages, clock advances and checks, a check dispatches exactly when a matching message arrived since the last dispatch and the latest is at least delay old, and the request names the agent and that message's topic |
| Debounce.FiresMeans | src/saga_agents/triggers/redis_listener.py:62-75 | A check fires if and only if a message on its state's topics came at least delay before it, with no other such message and no firing since |
| Debounce.SubmittedIsRequest | src/saga_agents/triggers/redis_listener.py:225-238 | At every event of every trace the machine submits exactly the request that the gate-free specification reads off the trace |
| Debounce.RequestOfPrefix | src/saga_agents/triggers/redis_listener.py:225-238 | What happens later changes no request, so the requests of a trace are those at its firing positions |
| Debounce.RequestsArePositions | src/saga_agents/triggers/redis_listener.py:225-238 | The requests of a trace are exactly those at its firing positions, in order |
| Debounce.GateAgrees | src/saga_agents/triggers/redis_listener.py:53-75 | After any trace the debouncer's fields and last_topic are what the trace says they must be |
| Debounce.NoMarkLost | src/saga_agents/triggers/redis_listener.py:53-60 | After a matching message, at any time, a dispatch has followed or the mark is pending |
| Debounce.DispatchesApart | src/saga_agents/triggers/redis_listener.py:62-75 | Two dispatches of one state are at least delay apart |
| Debounce.DispatchRate | src/saga_agents/triggers/redis_listener.py:62-75 | From one dispatch of a state to another, n dispatches, the last not counted, take at least n * delay |
| Debounce.DispatchedInTime | src/saga_agents/triggers/redis_listener.py:213-231 | With checks at most gap apart, a message followed by silence is dispatched exactly once, between delay and delay + gap later |
| Spacing.RateBySize | src/saga_agents/triggers/redis_listener.py:62-75 | Events that keep a distance happen at a bounded rate, counted as a set of positions; shared with the guidance cache |
| RedisListener.AllTriggersExact | src/saga_agents/triggers/redis_listener.py:135-146 | Exactly the event triggers of the enabled agents are listened for, each once and in order, with the agent's id, the trigger's topics, and a quiet window of 60 * debounce_minutes seconds, or one second from zero minutes down |
| RedisListener.DelaysAtLeastOne | src/saga_agents/triggers/redis_listener.py:135-146 | Every gate waits at least one second, whatever debounce_minutes is, and belongs to an enabled agent |
| RedisListener.RedisListener.constructor | src/saga_agents/triggers/redis_listener.py:123-146 | The listener has exactly the triggers that AllTriggersExact describes, all gates closed and the trace empty |
| RedisListener.RedisListener.HandleMessage | src/saga_agents/triggers/redis_listener.py:201-211 | A message extends the trace by one event per state, each mark at its own clock reading, and submits nothing; the gates stay where the trace leads them |
| RedisListener.RedisListener.CheckDueAndDispatch | src/saga_agents/triggers/redis_listener.py:219-245 | A tick extends the trace by one check per state, in order, each check that fires followed by what arrived during its await, returned or raised; after any sequence of messages and ticks the requests submitted are exactly those of the trace's firing positions |
| RedisListener.TickChecksAll | src/saga_agents/triggers/redis_listener.py:225-238 | A tick checks every state once, in order, each at its own clock reading; right behind a check that fires come the messages of its await, and nothing else happens |
| RedisListener.HeardInOrder | src/saga_agents/triggers/redis_listener.py:201-206 | Messages are heard one after the other, each by every state in turn |
| Timestamps.TextOrderIsTimeOrder | src/saga_agents/proposals/store.py:143-161 | For UTC times with four-digit years, byte order of the isoformat texts is chronological order, although a zero microsecond drops the fraction |
| Timestamps.InstantInjective | src/saga_agents/proposals/store.py:143 | Different times are different instants, so the order is total on times |
| Timestamps.BeforeIsEarlier | src/saga_agents/proposals/store.py:143 | Comparing calendar fields is comparing microseconds since year 1, leap years included |
| Timestamps.FractionOrder | src/saga_agents/proposals/store.py:161 | A missing fraction sorts before every written one |
| Timestamps.IsoReadsBack | src/saga_agents/proposals/store.py:161 | The stored text has the decimal fields and separators of ISO 8601 at fixed places, a six-digit fraction unless it is zero, and the offset +00:00, so every field can be read back |
| Timestamps.IsoInjective | src/saga_agents/proposals/store.py:93 | Different times have different texts, so reading a row back cannot confuse them |
| Timestamps.YearStarts | src/saga_agents/proposals/store.py:143 | The instants count Gregorian days: 365 a year and one more for every leap year before |
| Timestamps.MonthStarts | src/saga_agents/proposals/store.py:143 | And within a year, the days before each month |
| ProposalStore.PendingsListed | src/saga_agents/proposals/store.py:178-193 | list_pending gives every row of the table that is pending and of the agent asked for, if one is, exactly once and nothing else, oldest first in time |
| ProposalStore.SqliteProposalStore.Add | src/saga_agents/proposals/store.py:115-167 | Inserts one pending row with the given columns; raising before the commit changes nothing, raising after it leaves the row |
| ProposalStore.SqliteProposalStore.ListPending | src/saga_agents/proposals/store.py:169-193 | Returns the pending rows, oldest first |
| ProposalStore.SqliteProposalStore.UpdateStatus | src/saga_agents/proposals/store.py:215-239 | Changes status and error of that row only and counts it; a fault before the commit changes nothing, one after it changes the row and counts nothing, and an unknown id changes and counts nothing |
| ApprovalPipeline.OnlyApprovedWrites | src/saga_agents/runtime/toolset.py:44-67 | Over every system run, each tool call is one of three: by a run's agent, of an allowed tool and in proposal mode of no write tool; by the guidance provider, for a run whose prompt has a placeholder; or by an approve handler, with exactly the action and arguments of a row it read as pending and that a proposal-mode run proposed under its own run and agent id |
| ApprovalPipeline.ToolsOfRun | src/saga_agents/runtime/toolset.py:44-47 | The tools that runs of an agent can call are exactly those in `allow`, in proposal mode without those in `write`, and get_store_guidance if the prompt references a placeholder, whether listed or not |
| ApprovalPipeline.WriteToolCalledIff | src/saga_agents/runtime/guidance.py:164-167 | A proposal-mode run can call a tool of its `write` list if and only if get_store_guidance is in it and the prompt has a placeholder |
| ApprovalPipeline.UnlistedToolCalledIff | src/saga_agents/runtime/guidance.py:164-167 | A run can call a tool outside `allow` if and only if get_store_guidance is outside it and the prompt has a placeholder |
| ApprovalPipeline.DeduplicatorCallsUnlistedTool | config/agents/event-deduplicator.md:6-23 | A run of the shipped event deduplicator can call a tool that its `allow` list does not have |
| ApprovalPipeline.OverMeansOver | src/saga_agents/runtime/runner.py:155-166 | A run that stopped, was abandoned or could not get its guidance calls no tool and proposes nothing from then on, in any continuation |
| ApprovalPipeline.NoRowsWithoutSink | src/saga_agents/runtime/runner.py:231-233 | A run that was abandoned, could not get its guidance, or stopped without a sink or in autonomous mode has no row added from then on |
| ApprovalPipeline.NoAgentBeforeGuidance | src/saga_agents/runtime/runner.py:122-125 | A run whose prompt references a placeholder does not reach its agent before guidance was called for |
| ApprovalPipeline.ReachableInv | src/saga_agents/triggers/api.py:85-120 | The invariant behind the other results: rows are some run's proposals, decided rows were decided by a handler, each approve handler calls at most once and with what it read |
| ApprovalPipeline.RowsStayDecided | src/saga_agents/proposals/store.py:229-239 | A step changes at most status and error of one row, and never takes a decided row back to pending |
| ApprovalPipeline.RowsStayDecidedForever | src/saga_agents/proposals/store.py:229-239 | The same over every continuation |
| ApprovalPipeline.DecidedBySomeHandler | src/saga_agents/triggers/api.py:97-120 | However handlers overlap, an applied row had a call that returned, a failed row a call that raised exactly the error it carries, a rejected row a reject handler, and only failed rows carry an error |
| ApprovalPipeline.CallsWithinReaders | src/saga_agents/triggers/api.py:94-98 | Calls for a row never outnumber the approve handlers that read it pending |
| ApprovalPipeline.DecisionsCounted | src/saga_agents/proposals/store.py:229-239 | In every reachable state AGENT_PROPOSALS of a state plus the handlers that committed it uncounted are the handlers that committed it, and those cover every row now in it |
| ApprovalPipeline.CounterExactIff | src/saga_agents/proposals/store.py:229-239 | The counter equals the number of decisions if and only if no handler stopped, or is still, between commit and increment; then it covers the rows too |
| CallBound.CutLeavesUncounted | src/saga_agents/proposals/store.py:229-239 | A handler cut between commit and increment leaves a decided row with the counter at zero |
| OneShot.OneShot | src/saga_agents/triggers/api.py:94-120 | When handlers of one proposal do not overlap and their writes are committed, the calls made for a row are exactly one, with its own action and arguments, if it is applied (returned) or failed (raised), none if it is rejected, and for a pending row one only while its handler is under way |
| OneShot.EveryEndReached | src/saga_agents/triggers/api.py:94-120 | Such runs exist for every end: applied, failed and rejected |
| OneShot.DecidedForGood | src/saga_agents/triggers/api.py:94-120 | Under the same condition a decided row never changes again |
| CallBound.CallableAgainIff | src/saga_agents/triggers/api.py:94-102 | With no assumption on handlers: from a reachable state some continuation adds a call for a row if and only if the row is pending or an open approve handler that read it has not called yet |
| CallBound.CallableTwiceIff | src/saga_agents/triggers/api.py:94-102 | Two handlers can come to call for one row if and only if it is pending, or those that called and those that wait to are two already |
| CallBound.OverlapCallsTwice | src/saga_agents/triggers/api.py:94-102 | Two approve handlers that both read before either writes both call the server |
| CallBound.LostWriteCallsTwice | src/saga_agents/triggers/api.py:94-102 | Two approve handlers that do not overlap both call the server if the first one's write is lost |
| ProposalApi.ProposalApi.Approve | src/saga_agents/triggers/api.py:94-107 | A missing or decided row is answered 404 and nothing happens; a pending one is called once, with the recorded action and arguments, and becomes applied, or failed with the call's error, as the pipeline's steps do, unless the write raises before its commit |
| ProposalApi.ProposalApi.Reject | src/saga_agents/triggers/api.py:116-120 | A pending row is rejected without a call, exactly as the pipeline's steps do, whether its write succeeds or raises |
| ProposalApi.Stats | src/saga_agents/triggers/api.py:126-133 | For every known agent the number of its pending proposals in the table as its own query finds it, each query being awaited |
| ProposalApi.ApproveRuns | src/saga_agents/triggers/api.py:94-102 | Read, call, answer and write lead from the world before an approve to the one after it |
| AgentRunner.CountToolCalls | src/saga_agents/runtime/runner.py:60-80 | The number of tool-call parts over all messages, `propose` excluded, or over what precedes the first part that cannot be read |
| AgentRunner.CallsInIsNumber | src/saga_agents/runtime/runner.py:70-77 | The count is the number of positions of tool calls not named `propose` |
| AgentRunner.Persist | src/saga_agents/runtime/runner.py:231-249 | For every pattern of failing adds, the table grows by exactly the in-order subsequence of proposals whose INSERT was committed, and the last error is kept |
| AgentRunner.StoredIsSubsequence | src/saga_agents/runtime/runner.py:234-242 | The stored rows are, in order, those of every attempt whose INSERT was committed, each pending with its proposal's action, arguments and rationale under the run's and the agent's id |
| AgentRunner.LastFailureIsLast | src/saga_agents/runtime/runner.py:243-244 | The error kept is that of the last add that raised, if any did |
| AgentRunner.StoredIffAdded | src/saga_agents/runtime/runner.py:231-249 | The stored rows are those whose `add` returned if and only if no `add` raised after its commit |
| AgentRunner.PersistIsPipelineRun | src/saga_agents/runtime/runner.py:231-249 | The loop is a run of the approval pipeline's row-adding steps |
| AgentRunner.Run | src/saga_agents/runtime/runner.py:144-266 | The first stage that raises decides; a run that reaches its agent reports OK, limit exceeded, timeout or error exactly for that exit, with that exit's message, all proposals, and the output and tool calls only if it finished; the summary carries the warning with the last add error exactly when some add raised; and the committed rows are stored |
| AgentRunner.RunRaisesIff | src/saga_agents/runtime/runner.py:144-182 | A run raises if and only if building the model, the toolset or the agent raises, or resolving the prompt raises anything but a GuidanceFetchError, each if the run gets there |
| AgentRunner.RunCanRaise | src/saga_agents/runtime/runner.py:144-146 | A model factory that raises ends the run without a report |
| Scanner.ScanKeepsText | src/saga_agents/core/env.py:45 | The leftmost scan loses nothing of the text |
| Scanner.ScanInvertsText | src/saga_agents/core/env.py:45 | Scanning the text of canonical pieces gives those pieces back |
| EnvTemplate.ReadRefExact | src/saga_agents/core/env.py:16-18 | A token is found exactly where the text begins with a well-formed one, with its name and default |
| EnvTemplate.RoundTrip | src/saga_agents/core/env.py:35-45 | Printing any template and resolving it replaces each token by its environment value or else its default, and fails exactly when some token has neither, naming the first |
| EnvTemplate.AnyText | src/saga_agents/core/env.py:35-45 | The same for any text, in the pieces its leftmost tokens cut it into |
| EnvTemplate.OneToken | src/saga_agents/core/env.py:38-43 | One token alone: the environment comes first, then the default, then the failure |
| EnvTemplate.ShippedBearerToken | config/agents.yaml:7 | The shipped bearer token setting resolves to the environment's value, or to changeme without one |
| EnvTemplate.ResolveTreeLiftsResolveEnv | src/saga_agents/core/env.py:62-68 | A resolved tree has the same shape, keys and other scalars, its string leaves resolved in document order, and the same first failure |
| EnvTemplate.TreeByNode | src/saga_agents/core/env.py:62-68 | Child by child: a dict keeps its keys in order and a list its length, with every child resolved; a string is resolved; anything else is returned as it is |
| EnvTemplate.ResolveAllFailsIff | src/saga_agents/core/env.py:62-68 | Resolving the leaves fails exactly when one of them fails |
| Placeholders.ReadPlaceholderExact | src/saga_agents/runtime/guidance.py:24 | A placeholder is found exactly where the text begins with a well-formed one |
| Placeholders.SubstituteRoundTrip | src/saga_agents/runtime/guidance.py:72 | Printing any prompt and substituting concatenates its literals and, for each placeholder, the guidance text of its key, or nothing if there is none |
| Placeholders.ReferencesRoundTrip | src/saga_agents/runtime/guidance.py:38 | The keys a printed prompt references are those of its placeholders |
| Placeholders.ValidatesIff | src/saga_agents/runtime/guidance.py:13-56 | A printed prompt is valid if and only if the keys of its placeholders are all among the six |
| Placeholders.DependsOnReferencedKeys | src/saga_agents/runtime/guidance.py:38-72 | Guidance maps that agree on the referenced keys give the same prompt |
| Placeholders.IdentityWithoutReferences | src/saga_agents/runtime/guidance.py:72 | A text without placeholders is left alone |
| Placeholders.ShortcutIsSubstitution | src/saga_agents/runtime/runner.py:122-125 | Skipping the fetch equals unconditional substitution, and a failed fetch fails exactly the prompts that reference something |
| Placeholders.ValidatedNeedsNoDefault | src/saga_agents/runtime/guidance.py:51-72 | For a validated prompt and guidance with all six keys the empty default is never used |
| GuidanceProvider.CoercedMeans | src/saga_agents/runtime/guidance.py:99-111 | A dict whose only key is "result" is coerced as its value, once, everything else as itself: each key with the text of its last value, None as the empty text, and anything but a dict refused |
| GuidanceProvider.CoerceGuidance | src/saga_agents/runtime/guidance.py:75-111 | The loop that fills the dict computes exactly that |
| GuidanceProvider.CoercedUnique | src/saga_agents/runtime/guidance.py:75-111 | That contract leaves coercion one answer |
| GuidanceProvider.GuidanceProvider.BeginGet | src/saga_agents/runtime/guidance.py:156-162 | A look returns the cached value exactly when the trace of all callers so far leaves the cache fresh |
| GuidanceProvider.GuidanceProvider.FinishGet | src/saga_agents/runtime/guidance.py:164-177 | The end of a fetch returns the coerced result or raises, and only a success changes the cache, to what the trace says |
| GuidanceProvider.CacheIsLatestRefresh | src/saga_agents/runtime/guidance.py:156-177 | After any interleaving of callers the cache is what the latest successful fetch put there |
| GuidanceProvider.AnswersAreRecent | src/saga_agents/runtime/guidance.py:156-162 | However callers overlap, every returned value was fetched by the call itself, or by the latest refresh, ended less than ttl before the call looked |
| GuidanceProvider.FetchesIffStale | src/saga_agents/runtime/guidance.py:156-162 | A call fetches if and only if no refresh has ended or the latest one ended at least ttl before |
| GuidanceProvider.RefreshesApart | src/saga_agents/runtime/guidance.py:157-175 | A refresh whose call looked after another refresh ended, ends at least ttl after it: refreshes are closer only if their calls overlap |
| GuidanceProvider.OverlapFetchesTwice | src/saga_agents/runtime/guidance.py:157-175 | Two overlapping calls both fetch, and no time need pass between their refreshes |
| GuidanceProvider.RefreshRate | src/saga_agents/runtime/guidance.py:157-175 | Among any calls, n successive refreshes that do not overlap, the last not counted, take at least n * ttl |
| Frontmatter.Find | src/saga_agents/config/loader.py:95 | The first occurrence from the start position, or none if there is none |
| Frontmatter.StripSound | src/saga_agents/config/loader.py:101 | Stripping removes the blanks at both ends, all of them and nothing else |
| Frontmatter.SplitInvertsJoin | src/saga_agents/config/loader.py:93-103 | Splitting a printed file gives back the front matter and the stripped body if and only if the front matter neither contains the fence nor ends in its first four characters, and the body is not blank |
| Frontmatter.SplitExact | src/saga_agents/config/loader.py:93-103 | A text splits into exactly the parts it is made of, and fails with an empty body exactly when its rest is blank |
| Frontmatter.SplitNeedsFences | src/saga_agents/config/loader.py:93-99 | The split fails with a missing opening or an unclosed block exactly when the opening or every closing fence is missing |
| Frontmatter.ParseParts | src/saga_agents/config/loader.py:100-112 | Stage by stage: a blank body, an unresolvable front matter, an unknown placeholder and a refusal by YAML or the schema each give their error; otherwise the agent has the id YAML and the schema read off the resolved front matter, and the stripped body |
| Frontmatter.LoadedPrompt | src/saga_agents/config/loader.py:101-108 | A loaded agent's prompt is stripped and not blank, and never needs the empty default |
| Frontmatter.LoadAgentFiles | src/saga_agents/config/loader.py:131-146 | Loading succeeds exactly when every file parses and all ids differ, gives the agents in order, and otherwise reports the first faulty file, a duplicate with the file that had the id |

## Left out

- RunExecutor.Submit: covers a submit that finds its permits free and that nobody interrupts; interrupted and waiting ones are the interleavings of `RunSystem`, whose steps the class methods take.
- OneShot.OneShot: assumes that the handlers of one proposal do not overlap and that their writes are committed, because the claim is false otherwise; `CallBound` has the exact conditions.
- AgentRunner.Run: is about a run that is not cancelled; a cancelled one is an `Abandoned` step of `ApprovalPipeline`.
- ApprovalPipeline.DecisionsCounted: is about one process's lifetime; a restart begins with counters at zero.
- ProposalStore.PendingsListed: rows with equal times come in insertion order here, while SQLite promises no order among them.
- FIFO fairness of `asyncio.Semaphore`: any waiter may be resumed, so the results hold for the real order too.
- Float rounding in the debounce and cache clocks, and SQLite's and Redis's own machinery.
- A cancelled listener or tick task, Redis pub/sub transport and JSON decoding of messages.
- FastAPI routing, the bearer check, status codes other than the four outcomes above, `jsonable_encoder`, and the answers given when proposals are disabled.
- The agent library, the MCP client, model building and tracing: a run is any list of tool calls and proposals followed by any outcome.
- YAML parsing and schema validation of agent files beyond the checks named above (they are one parameter, consulted after the placeholder check), reading the directory, and the global configuration file.
- The scheduler, application start and stop, and logging.
