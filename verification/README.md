# vv-agent state machines and wire codecs, verified

A Dafny model of the hand-written state machines, logs and codecs of the vv-agent
crate, with proofs about every run and every input. `dafny verify dfyconfig.toml`
checks everything.

| files | subject |
|---|---|
| `RequestSerialization.dfy` | the per-key shared/exclusive first-in-first-out request queue |
| `Outgoing.dfy`, `OutgoingHistory.dfy` | JSON-RPC requests from the server to its clients, as an interleaved system of locked sections |
| `Budget.dfy`, `BudgetRuns.dfy`, `BudgetVerdicts.dfy`, `BudgetTokens.dfy`, `BudgetResume.dfy` | the budget evaluator, its answers, its whole runs, and snapshot and resume |
| `Sessions.dfy`, `SessionStores.dfy` | one shared SQLite table against one list per session |
| `AppendOnce.dfy` | idempotent session commits, run events and thread items as one kind of log |
| `Approval.dfy` | approval requests, cancellation and session grants |
| `ThreadState.dfy` | subscriptions, turns, closing and follow-ups of threads |
| `RunHandle.dfy` | terminal-event fold, active sub-runs, controller generations |
| `ContextAssembly.dfy` | the stable sort and greedy fill of the prompt context |
| `ControllerWire.dfy`, `HostInteraction.dfy`, `HostRecords.dfy`, `ControllerCommands.dfy` | strict codecs with content digests |
| `Common.dfy`, `Json.dfy`, `Unicode.dfy`, `LexOrder.dfy`, `History.dfy` | shared types, encodings, orders and histories |

Each stateful object appears twice: as values with a step function, over which
the run theorems range, and as a class whose methods change fields in place and
are proved equal to those steps.

## Reading the model

- A section of code under one lock is one atomic step. In `Outgoing.dfy` taking a
  number from the id counter and firing a callback are steps of their own; the
  channel accepts or refuses a message as an input of the step.
- Clock readings, cost-meter readings, timer expiry and snapshot callbacks are
  inputs of the steps. Digests, hashes, and the artifact and compaction checks of
  other files are function parameters; theorems that need no two values to share
  a digest say so for exactly the pair they compare.
- SQL statements are functions of a table whose row index only grows. The
  agreement theorems of the session stores assume that the row ids are not
  exhausted.
- A session payload is stored as JSON text; the model takes writing a value as text
  and reading it back as lossless. For a number that is not an integer this is an
  assumption: the crate does not ask its JSON library for exact reading of floats.
- Where the source would panic because a session item has no wire form, the model
  returns an error.
- A tool batch has at most `isize::MAX` names, as any Rust slice.
- Object keys of the controller codecs are the field names those codecs know, or
  any other text. Errors carry the source's error code and not its message text.
- Strings are sequences of Unicode scalar values, as in Rust; byte limits are
  stated on the UTF-8 length, and the id order of context fragments on UTF-16 code
  units.

## What turned out false, and exactly when it holds

Each has a lemma at a failing input and a theorem that says exactly when it fails.

- A request id can be reused by a caller who chooses ids: then the late cleanup of
  one request can remove another (`ReusedIdLosesARequest`). It happens exactly when
  the id was reused and is pending (`ForeignRemovalIffIdReused`).
- A request can be disconnected while its connection is registered
  (`ReturnedConnectionLosesARequest`): without a new unregistration this can happen
  exactly while an earlier one is between its two sections (`StrayDisconnectIff`).
- Re-snapshotting resumed usage is the identity exactly when the latches were
  listed in precedence order (`SnapshotAfterResume`; fails at
  `UnrankedUsageIsReordered`), and a run's own snapshot is resumable exactly under
  the condition of `SnapshotValidIff` (fails at `BlankToolNameCannotBeResumed`).
- The two session stores agree exactly on portable items (`AgreeIffPortable`; fails
  at `BlankCallIdDisagrees`).
- A decision is not written or delivered at most once under an approval id that is
  registered again: an id registered n times can have any n decisions delivered
  (`AnyDecisionsCanBeDelivered`) and never more (`BooksBalance`), so at most once is
  guaranteed exactly for at most one registration (`AtMostOnceIff`).
- A failed snapshot would not restore a stored empty subscriber set
  (`FailedSnapshotRestoresIff`, `StoredEmptySetIsLost`); no run stores one.
- A valid interaction record or wake need not be readable: the reader bounds the
  claim token, the revisions, the last error and the wake's cycle, and the
  validators do not (`RecordRoundTrip`, `WakeRoundTrip`; fail at
  `LongClaimTokenIsNotReadable`, `LateWakeIsNotReadable`). The record reader also
  accepts an explicit null last error, which printing drops (`RecordExactIff`;
  fails at `SomeNullLastErrorIsDropped`).
- A record's response is tied to its request by digest, interaction and cycle, but
  not by operation or tool call (`ResponseOperationIsFree`).

## Model

| member | source | states |
|---|---|---|
| `RequestSerialization.AcquireIsGreedyAdmission` | crates/vv-agent/src/app_server/request_serialization.rs:103-119 | Acquiring equals queueing the request and then granting head waiters while they are compatible; afterwards no grant is owed |
| `RequestSerialization.ReleaseIsGreedyAdmission` | crates/vv-agent/src/app_server/request_serialization.rs:121-131 | Releasing equals dropping the holder and then granting greedily in arrival order; the batch of shared wake-ups is the one the reference grants one by one |
| `RequestSerialization.AdmitGrantsSharedRun` | crates/vv-agent/src/app_server/request_serialization.rs:170-196 | With no exclusive holder, greedy admission grants exactly the longest all-shared prefix |
| `RequestSerialization.AcquireKeepsLane` | crates/vv-agent/src/app_server/request_serialization.rs:103-119 | Acquiring keeps the invariant of a key and leaves it non-idle |
| `RequestSerialization.ReleaseKeepsLane` | crates/vv-agent/src/app_server/request_serialization.rs:121-131 | Releasing a holder keeps the invariant of a key |
| `RequestSerialization.StepKeepsKey` | crates/vv-agent/src/app_server/request_serialization.rs:103-131 | Every acquire or release, on any key, keeps the invariant of every key, including that idle keys are absent |
| `RequestSerialization.RunKeepsInvariant` | crates/vv-agent/src/app_server/request_serialization.rs:103-200 | Every run keeps, per key: grants then waiters are the arrivals in order, an exclusive holder is alone, counters equal unreleased grants, the head waiter is blocked, idle keys are absent |
| `RequestSerialization.EveryRunIsSafe` | crates/vv-agent/src/app_server/request_serialization.rs:103-200 | The same from the empty queue |
| `RequestSerialization.WaitersHaveAHolder` | crates/vv-agent/src/app_server/request_serialization.rs:142-196 | Waiters exist only under a holder, a shared head only under an exclusive holder, and a key is stored exactly when it has a holder |
| `RequestSerialization.ReleaseNeverClamps` | crates/vv-agent/src/app_server/request_serialization.rs:159-168 | The saturating decrement of a legal release never clamps |
| `RequestSerialization.KeysAreIndependent` | crates/vv-agent/src/app_server/request_serialization.rs:103-131 | What happens on a key is decided by the events of that key alone |
| `RequestSerialization.GrantsOnlyGrow` | crates/vv-agent/src/app_server/request_serialization.rs:170-196 | A grant is never taken back |
| `RequestSerialization.ReleaseMakesProgress` | crates/vv-agent/src/app_server/request_serialization.rs:121-196 | One release on the key lowers holders plus requests ahead by one, or grants the waiter |
| `RequestSerialization.OthersDoNotDelay` | crates/vv-agent/src/app_server/request_serialization.rs:103-150 | Arrivals on the key and events on other keys do not move a waiter back |
| `RequestSerialization.BoundedWait` | crates/vv-agent/src/app_server/request_serialization.rs:103-200 | A waiter with k ahead and a active holders is granted after at most a + k releases on its key, whatever else happens |
| `RequestSerialization.QueueState.Wake` | crates/vv-agent/src/app_server/request_serialization.rs:170-196 | The draining loop refines the specified wake-up and returns the notified requests in order |
| `RequestSerialization.QueueState.StartNow` | crates/vv-agent/src/app_server/request_serialization.rs:152-157 | In-place start refines the specified one |
| `RequestSerialization.QueueState.FinishOne` | crates/vv-agent/src/app_server/request_serialization.rs:159-168 | In-place finish refines the specified one |
| `RequestSerialization.RequestSerializationQueue.AcquireScope` | crates/vv-agent/src/app_server/request_serialization.rs:103-119 | The in-place acquire refines the step the run theorems speak of |
| `RequestSerialization.RequestSerializationQueue.ReleaseScope` | crates/vv-agent/src/app_server/request_serialization.rs:121-131 | The in-place release refines that step, returns the woken requests and removes an idle key |
| `Outgoing.StepKeepsInvariant` | crates/vv-agent/src/app_server/outgoing.rs:60-381 | Every locked section of every task, in any order, keeps the invariant on entries and tasks |
| `Outgoing.RunKeepsInvariant` | crates/vv-agent/src/app_server/outgoing.rs:72-381 | In every interleaving each pending entry belongs to its sender and its connection is registered, or being unregistered, or its sender is still in flight |
| `Outgoing.NothingPendsOnADepartedConnection` | crates/vv-agent/src/app_server/outgoing.rs:72-95 | When no unregistration and no send is in flight, no request is pending on a departed connection |
| `Outgoing.RequestsLeaveExactlyOnce` | crates/vv-agent/src/app_server/outgoing.rs:228-300 | An accepted request is pending or left for exactly one cause; its callback fires at most once, with what that cause owes, and its receiver holds nothing else; a timed request that returned is not pending |
| `Outgoing.CausesArePermanent` | crates/vv-agent/src/app_server/outgoing.rs:228-364 | A recorded cause is never rewritten or dropped |
| `Outgoing.ForeignRepliesChangeNothing` | crates/vv-agent/src/app_server/outgoing.rs:329-364 | A reply from the wrong connection, method, thread or turn, or under an unknown id, changes nothing; a matching one takes out exactly its request and leaves its callback to be fired with the answer |
| `Outgoing.FreshIdsMeanOwnRemovals` | crates/vv-agent/src/app_server/outgoing.rs:228-300 | With unique ids a timeout or failed send removes only its own request |
| `Outgoing.ForeignRemovalIffIdReused` | crates/vv-agent/src/app_server/outgoing.rs:260-300 | A cleanup removes another request exactly when that request reused the id and is pending |
| `Outgoing.ReusedIdLosesARequest` | crates/vv-agent/src/app_server/outgoing.rs:277-300 | Concrete run: with a reused id the late cleanup of one request removes another that is still being sent |
| `Outgoing.GeneratedIdsDiffer` | crates/vv-agent/src/app_server/outgoing.rs:187-200 | Different counters give different generated ids |
| `Outgoing.GeneratedIdsAreFresh` | crates/vv-agent/src/app_server/outgoing.rs:187-222 | A run that lets the server choose all ids never reuses one |
| `Outgoing.StrayDisconnectIff` | crates/vv-agent/src/app_server/outgoing.rs:72-95 | A pending request can be disconnected although no unregistration of its connection begins any more, exactly when one is still between its two locked sections |
| `Outgoing.NotDisconnected` | crates/vv-agent/src/app_server/outgoing.rs:72-95 | With no unregistration of its connection in progress and none begun, no run disconnects a request |
| `Outgoing.ReturnedConnectionLosesARequest` | crates/vv-agent/src/app_server/outgoing.rs:72-95 | Concrete run: a request sent after its connection came back is disconnected by the earlier unregistration while the connection is registered |
| `OutgoingHistory.SettingsAreHeld` | crates/vv-agent/src/app_server/outgoing.rs:60-114 | In every run a connection is known exactly when a call made it known since it last began to leave; it is ready exactly when marked so since, and its opted-out methods are those configured last since, or none |
| `OutgoingHistory.SendAcceptedIff` | crates/vv-agent/src/app_server/outgoing.rs:228-260 | A send is accepted exactly when its id is not null and not pending, and then adds its entry and nothing else |
| `OutgoingHistory.HandOversAreTrue` | crates/vv-agent/src/app_server/outgoing.rs:261-275 | In every run a request is awaited only after its message was handed over; it is handed over or refused at most once; one that was refused, or never handed over, finishes only after its entry has left for exactly one cause |
| `OutgoingHistory.TasksLookUpFirst` | crates/vv-agent/src/app_server/outgoing.rs:366-381 | In every run a message is handed over only for a connection that was known when looked up, and a send fails only because the channel refused it or its connection was unknown |
| `OutgoingHistory.RequestsWereSent` | crates/vv-agent/src/app_server/outgoing.rs:228-260 | In every run each request has its connection, id, method, thread and turn from the call that sent it |
| `OutgoingHistory.CausesAreExplained` | crates/vv-agent/src/app_server/outgoing.rs:72-95 | In every run the cause for which a request left is the work of a call that names it as it was sent: a reply or an error from its connection under its id, with every bound agreeing, an unregistration of its connection, or a cleanup |
| `OutgoingHistory.RepliesAreExplained` | crates/vv-agent/src/app_server/outgoing.rs:329-364 | Whatever a callback is given is the value of such a reply, the error of such an error, or the disconnection |
| `History.HeldIff` | crates/vv-agent/src/app_server/outgoing.rs:97-114 | A field holds a value exactly when some call wrote it and no later call wrote another or erased it |
| `Outgoing.ParseDecimal` | crates/vv-agent/src/app_server/outgoing.rs:187-200 | The decimal text of a counter reads back as the counter |
| `Outgoing.OutgoingMessageSender.DrainConnection` | crates/vv-agent/src/app_server/outgoing.rs:72-95 | The second phase of unregistration removes exactly the requests of the connection, each once |
| `Outgoing.OutgoingMessageSender.InsertPending` | crates/vv-agent/src/app_server/outgoing.rs:228-260 | An id is accepted exactly when it is not null and not pending; nothing else changes |
| `Outgoing.OutgoingMessageSender.TakeResponse` | crates/vv-agent/src/app_server/outgoing.rs:329-349 | The entry is taken exactly when connection, method, thread and turn agree; otherwise the table is unchanged |
| `Outgoing.OutgoingMessageSender.NextRequestId` | crates/vv-agent/src/app_server/outgoing.rs:187-200 | Each generated id names the counter, which advances by one |
| `Outgoing.OutgoingMessageSender.RegisterConnection` | crates/vv-agent/src/app_server/outgoing.rs:60-66 | Registering a known connection changes nothing; a new one starts not ready and with nothing opted out |
| `Outgoing.OutgoingMessageSender.ConfigureConnection` | crates/vv-agent/src/app_server/outgoing.rs:97-105 | Sets the opted-out methods, keeps the ready flag, and leaves other connections alone |
| `Outgoing.OutgoingMessageSender.MarkReadyForNotifications` | crates/vv-agent/src/app_server/outgoing.rs:107-114 | Sets the ready flag, keeps the opted-out methods, and leaves other connections alone |
| `BudgetRuns.RunLatches` | crates/vv-agent/src/budget.rs:725-744 | Over any run the unavailable latches only grow and keep their first reason; limits never change |
| `BudgetRuns.ScanReportsFirst` | crates/vv-agent/src/budget.rs:746-821 | A check reports the first offending dimension of the precedence list, and nothing if there is none |
| `BudgetRuns.ScanFinds` | crates/vv-agent/src/budget.rs:746-821 | A check reports something exactly when some dimension offends |
| `BudgetRuns.StepJudgesObserved` | crates/vv-agent/src/budget.rs:415-547 | Each boundary answers the verdict on the state it observed; only a preflight adds the count checks |
| `BudgetRuns.StepShape` | crates/vv-agent/src/budget.rs:415-547 | Past its observations a boundary changes only counters |
| `BudgetRuns.StopStopsForGood` | crates/vv-agent/src/budget.rs:746-767 | Under Stop, once a limited dimension is latched every later boundary stops, except the completion of a failed tool batch |
| `BudgetRuns.MarkedNeverExhausts` | crates/vv-agent/src/budget.rs:769-821 | Under ContinueAndMark a latched time, token or cost dimension never causes exhaustion again |
| `BudgetRuns.CountersAreAFold` | crates/vv-agent/src/budget.rs:426-526 | From default usage, cycles, tool calls and each named count equal folds over the admitted calls of the history, capped at the largest u64 |
| `BudgetRuns.ToolCallsIsTheSum` | crates/vv-agent/src/budget.rs:494-525 | Barring saturation, tool_calls is the sum of tool_calls_by_name and the length of the admitted batches |
| `BudgetRuns.RefusalChangesNoCounter` | crates/vv-agent/src/budget.rs:467-526 | A refusing boundary changes no counter; only an admitted batch changes tool counters |
| `BudgetRuns.ToolLimitsHold` | crates/vv-agent/src/budget.rs:467-547 | From usage within limits no run drives tool calls or a named count above its limit, and no boundary ever reports them exceeded |
| `BudgetRuns.NeverExceedsToolCalls` | crates/vv-agent/src/budget.rs:542-547 | Within limits no boundary, terminal included, reports tool calls exceeded |
| `BudgetVerdicts.BoundaryAnswers` | crates/vv-agent/src/budget.rs:415-547 | The answer of every boundary on the fields of the evaluator: under Stop the first latched dimension with a limit; else the first covered available dimension that has reached its limit, or passed it, with limit, value, overshoot, unit and boundary; else, before a batch, its counts; else none |
| `BudgetVerdicts.LimitOffence` | crates/vv-agent/src/budget.rs:769-865 | What one check reports of one dimension, written out on the limits, the counters and the latches |
| `BudgetVerdicts.StrictOffence` | crates/vv-agent/src/budget.rs:746-767 | What the check for unavailable metrics reports of one dimension, written out likewise |
| `BudgetVerdicts.FirstByRank` | crates/vv-agent/src/budget.rs:867-881 | A scan reports the offending dimension of lowest rank, and nothing exactly when none offends |
| `BudgetVerdicts.PreflightCounts` | crates/vv-agent/src/budget.rs:479-525 | A batch is refused for the total first, then for the least name in byte order whose limit it would pass, with exact numbers, and is admitted otherwise |
| `BudgetVerdicts.TimeObserved` | crates/vv-agent/src/budget.rs:554-573 | Elapsed time never goes back, and past 2^53-1 milliseconds time is latched instead |
| `BudgetVerdicts.CostObserved` | crates/vv-agent/src/budget.rs:575-635 | A good reading is recorded as read; any other latches cost for its own reason, with the units and currencies seen |
| `BudgetVerdicts.CostIsTheLastReading` | crates/vv-agent/src/budget.rs:575-635 | Over any run cost stays available exactly while every reading is good, and then the cost on record is the last reading of the meter |
| `BudgetTokens.TokensAreAFold` | crates/vv-agent/src/budget.rs:637-706 | A token total is the exact sum of the reports until one is missing or a partial sum passes 2^53-1; then it is unknown and latched for that reason, for good |
| `BudgetTokens.NoFaultIff` | crates/vv-agent/src/budget.rs:685-706 | Nothing goes wrong exactly when every report is present and the whole sum fits the wire |
| `BudgetTokens.AdmissionMeansBelow` | crates/vv-agent/src/budget.rs:769-794 | An admitted model call finds every available token total below its limit |
| `BudgetTokens.OvershootIsBounded` | crates/vv-agent/src/budget.rs:434-465 | If each completed call follows its own admitted start and totals stay available, the total is below the limit plus the last call |
| `BudgetResume.SnapshotIsRanked` | crates/vv-agent/src/budget.rs:400-413 | A snapshot lists the latches in precedence order |
| `BudgetResume.SnapshotCollects` | crates/vv-agent/src/budget.rs:364-398 | Collecting the listed latches gives the latch map back |
| `BudgetResume.RankedIsListedBack` | crates/vv-agent/src/budget.rs:867-881 | A list already in precedence order is listed back unchanged |
| `BudgetResume.ResumeRestores` | crates/vv-agent/src/budget.rs:364-413 | Resuming from a valid snapshot rebuilds every field except the clock origin, and the next snapshot is the same |
| `BudgetResume.SnapshotAfterResume` | crates/vv-agent/src/budget.rs:364-413 | Any valid usage can be resumed; re-snapshotting is the identity exactly when its latches were in precedence order |
| `BudgetResume.WithClockIff` | crates/vv-agent/src/budget.rs:364-398 | An evaluator is made exactly from valid limits, at least one of them, and valid usage; without usage all counters start at zero |
| `BudgetResume.UnrankedUsageIsReordered` | crates/vv-agent/src/budget.rs:364-413 | For all valid limits: a valid usage that lists tokens before time comes back reordered |
| `BudgetResume.BlankToolNameCannotBeResumed` | crates/vv-agent/src/budget.rs:255-300 | Concrete run: a batch of one blank tool name is admitted and the snapshot is then not valid |
| `BudgetResume.RunKeepsWellFormed` | crates/vv-agent/src/budget.rs:549-744 | Every run keeps token totals, elapsed time, cost and latches within what a snapshot allows |
| `BudgetResume.SnapshotValidIff` | crates/vv-agent/src/budget.rs:255-300 | A run from default usage has a resumable snapshot exactly when its admitted cycles and tool calls fit the wire and no admitted tool name is blank |
| `BudgetResume.SegmentElapsed` | crates/vv-agent/src/budget.rs:554-573 | Within one life the elapsed time is the base plus the whole milliseconds since the start |
| `BudgetResume.ElapsedTracksActiveTime` | crates/vv-agent/src/budget.rs:554-573 | Over n resumed lives the elapsed time never exceeds the observed active time and lags it by less than n milliseconds |
| `Budget.BudgetEvaluator.LatchUnavailable` | crates/vv-agent/src/budget.rs:725-744 | In place: the first latch of a dimension stays |
| `Budget.BudgetEvaluator.Elapsed` | crates/vv-agent/src/budget.rs:554-573 | In place: refines the specified time observation, overflow included |
| `Budget.BudgetEvaluator.HostCostReading` | crates/vv-agent/src/budget.rs:575-635 | In place: refines the specified cost observation with every outcome |
| `Budget.BudgetEvaluator.Tokens` | crates/vv-agent/src/budget.rs:637-683 | In place: refines the specified token observation |
| `Budget.BudgetEvaluator.StartRun` | crates/vv-agent/src/budget.rs:415-424 | In place: refines the specified boundary |
| `Budget.BudgetEvaluator.StartCycle` | crates/vv-agent/src/budget.rs:426-432 | In place: counts the cycle only if admitted |
| `Budget.BudgetEvaluator.StartModelCall` | crates/vv-agent/src/budget.rs:434-448 | In place: refines the specified boundary |
| `Budget.BudgetEvaluator.CompleteModelCall` | crates/vv-agent/src/budget.rs:450-465 | In place: observes tokens first, then the boundary |
| `Budget.BudgetEvaluator.Preflight` | crates/vv-agent/src/budget.rs:467-526 | In place: counts the batch only if it is admitted by every check |
| `Budget.BudgetEvaluator.FirstOver` | crates/vv-agent/src/budget.rs:498-518 | The reported name is the least, in key order, whose limit the batch would pass |
| `Budget.BudgetEvaluator.AddNames` | crates/vv-agent/src/budget.rs:520-524 | The loop adds every count of the batch, saturating, and touches no other name |
| `Budget.BudgetEvaluator.CompleteToolBatch` | crates/vv-agent/src/budget.rs:528-540 | In place: a failed batch is observed and never refused |
| `Budget.BudgetEvaluator.Finish` | crates/vv-agent/src/budget.rs:542-547 | In place: refines the specified boundary |
| `LexOrder.Least` | crates/vv-agent/src/budget.rs:498-518 | The loop finds the least key of a map in the order of UTF-8 bytes |
| `LexOrder.StringOrderIsTotal` | crates/vv-agent/src/budget.rs:498-518 | The byte order of strings is total: different strings have different bytes |
| `Unicode.Utf8Injective` | crates/vv-agent/src/budget.rs:498-518 | Different strings have different UTF-8 encodings |
| `LexOrder.LessIff` | crates/vv-agent/src/budget.rs:498-518 | One sequence is less than another exactly when at the first difference it ends or has the smaller element |
| `Unicode.BytesSpell` | crates/vv-agent/src/budget.rs:498-518 | The bytes of a character are those of section 3 of RFC 3629 |
| `Unicode.UnitsSpell` | crates/vv-agent/src/context_providers.rs:226-226 | The units of a character are those of section 2.1 of RFC 2781 |
| `LexOrder.LeastIsUnique` | crates/vv-agent/src/budget.rs:498-518 | There is only one least key |
| `Sessions.MessageRoundTrip` | crates/vv-agent/src/sessions.rs:117-164 | Nothing of a message is lost in the compact item, whichever form is chosen |
| `Sessions.CallsRoundTrip` | crates/vv-agent/src/sessions.rs:254-286 | Written tool calls read back as themselves exactly when each is acceptable to the reader; otherwise reading fails |
| `Sessions.WireRoundTrip` | crates/vv-agent/src/sessions.rs:166-409 | A written message reads back as itself exactly when it is portable; otherwise reading fails |
| `Sessions.LimitedIsTail` | crates/vv-agent/src/sessions.rs:634-686 | Newest first with a limit, turned round, is the tail of oldest first |
| `Sessions.InsertAppends` | crates/vv-agent/src/sessions.rs:688-711 | Inserting rows appends to the rows of that session and leaves every other session alone |
| `Sessions.NewestIsLast` | crates/vv-agent/src/sessions.rs:775-811 | Deleting the newest row of a session drops its last item only |
| `Sessions.GetAgrees` | crates/vv-agent/src/sessions.rs:433-453 | Reading the table with any limit answers as the list does |
| `Sessions.PopRefines` | crates/vv-agent/src/sessions.rs:501-509 | Popping from the table refines popping from the list |
| `Sessions.ClearRefines` | crates/vv-agent/src/sessions.rs:813-837 | Clearing removes the rows and commits of that session only |
| `Sessions.StepRefines` | crates/vv-agent/src/sessions.rs:629-837 | Each operation gives the same answer and keeps every session refined |
| `Sessions.StoresAgree` | crates/vv-agent/src/sessions.rs:428-526 | Every run of gets, adds, idempotent adds, pops and clears over any mix of sessions answers on the shared table as on one independent list per session |
| `Sessions.FreshStoresAgree` | crates/vv-agent/src/sessions.rs:629-837 | The same from empty stores |
| `Sessions.AgreeIffPortable` | crates/vv-agent/src/sessions.rs:166-409 | Storing one item and reading it back agrees exactly when the item is portable |
| `Sessions.NotPortableDisagrees` | crates/vv-agent/src/sessions.rs:254-286 | Every item that is not portable makes the table fail to store it or to read it back |
| `Sessions.BlankCallIdDisagrees` | crates/vv-agent/src/sessions.rs:254-286 | Whatever the checks of other files accept, a message with a tool call of no id is not portable and the two stores disagree on it |
| `Sessions.CommitErrorIff` | crates/vv-agent/src/sessions.rs:70-95 | The validator passes exactly the commits with an id, a SHA-256 digest and items whose wire forms have that digest, and reports the first thing wrong with any other |
| `Sessions.ListLaws` | crates/vv-agent/src/sessions.rs:428-526 | A session in memory is a list: adding appends, a limit takes the newest, popping undoes one append, clearing forgets items and commits |
| `Sessions.FailuresChangeNothing` | crates/vv-agent/src/sessions.rs:629-837 | An operation that fails changes neither store |
| `Sessions.CommittedIsRecorded` | crates/vv-agent/src/sessions.rs:717-773 | A commit reported as made was not on record before and is on record after, with its digest |
| `SessionStores.MemorySession.AddItemsOnce` | crates/vv-agent/src/sessions.rs:470-499 | In place: refines the specified commit, with its errors |
| `SessionStores.MemorySession.GetItems` | crates/vv-agent/src/sessions.rs:433-453 | In place: the last items within the limit |
| `SessionStores.MemorySession.PopItem` | crates/vv-agent/src/sessions.rs:501-509 | In place: refines the specified pop |
| `SessionStores.SqliteSessionStore.DecodeRows` | crates/vv-agent/src/sessions.rs:679-684 | Rows decode one by one; the first unreadable one fails the call |
| `SessionStores.SqliteSessionStore.GetItems` | crates/vv-agent/src/sessions.rs:634-686 | In place: refines the specified query |
| `SessionStores.SqliteSessionStore.AddItems` | crates/vv-agent/src/sessions.rs:688-711 | In place: the insert loop refines the transaction; on an error nothing is stored |
| `SessionStores.SqliteSessionStore.AddItemsOnce` | crates/vv-agent/src/sessions.rs:717-773 | In place: refines the transaction with its commit row |
| `SessionStores.SqliteSessionStore.PopItem` | crates/vv-agent/src/sessions.rs:775-811 | In place: refines the specified pop |
| `SessionStores.SqliteSessionStore.ClearSession` | crates/vv-agent/src/sessions.rs:813-837 | In place: refines the specified clear |
| `AppendOnce.FirstWithIsEarliest` | crates/vv-agent/src/checkpoint.rs:820-880 | The delivery found for an id is its earliest one |
| `AppendOnce.RedeliveryAddsNothing` | crates/vv-agent/src/checkpoint.rs:820-880 | Redelivering known ids, in any pattern and with any content, adds nothing to the log of first deliveries |
| `AppendOnce.LedgerKnowsEarliest` | crates/vv-agent/src/checkpoint.rs:820-880 | A log knows an id with a fingerprint exactly as it was first delivered |
| `AppendOnce.LedgerKeepsFirsts` | crates/vv-agent/src/checkpoint.rs:820-880 | After any deliveries the log is the list of first deliveries in order |
| `AppendOnce.VerdictsAreRight` | crates/vv-agent/src/checkpoint.rs:842-856 | New, replayed and conflicting deliveries are told apart correctly, and only a new one changes the log |
| `AppendOnce.CommitsAreAcceptedOnce` | crates/vv-agent/src/sessions.rs:470-499 | After any commits without a clear, valid or not, repeated or conflicting, the session holds the items of the first valid commit of each id in order |
| `AppendOnce.CommitIsOffer` | crates/vv-agent/src/sessions.rs:470-499 | One idempotent commit is refused by the validator and changes nothing, or is one delivery to the log, answered with its verdict |
| `AppendOnce.EventsAreAcceptedOnce` | crates/vv-agent/src/checkpoint.rs:820-880 | After any deliveries, valid or not, the stored events are the first valid delivery of each id, with sequences exactly 1..n |
| `AppendOnce.EventResults` | crates/vv-agent/src/checkpoint.rs:842-880 | The result of an append is the verdict; a redelivery gets the original cursor |
| `AppendOnce.InvalidEventsAreRefused` | crates/vv-agent/src/checkpoint.rs:821-841 | An invalid delivery changes nothing and is answered with the code of the first thing wrong with it |
| `AppendOnce.FullTableRefuses` | crates/vv-agent/src/checkpoint.rs:861-863 | When the sequence is used up a new event is refused and nothing changes |
| `AppendOnce.ReplayIsAcceptedOrder` | crates/vv-agent/src/checkpoint.rs:906-932 | Replay gives the wanted events in order of first acceptance |
| `AppendOnce.ItemsAreAcceptedOnce` | crates/vv-agent/src/app_server/thread_store.rs:302-357 | After any deliveries the item table is the log of first deliveries, with sequences exactly 1..n on every thread |
| `AppendOnce.NextSequence` | crates/vv-agent/src/app_server/thread_store.rs:302-357 | The next sequence of a thread is one more than the number of its accepted items |
| `AppendOnce.MisaddressedItemIsRefused` | crates/vv-agent/src/app_server/thread_store.rs:302-311 | An item addressed to another thread or turn than its own is refused and changes nothing |
| `AppendOnce.NormalizedOnlyRescales` | crates/vv-agent/src/app_server/thread_store.rs:708-714 | Replay brings timestamps of at least 10^11 to seconds and changes nothing else of an item |
| `AppendOnce.ReplayIsThreadOrder` | crates/vv-agent/src/app_server/thread_store.rs:359-380 | Replaying a thread gives its first acceptances in order |
| `AppendOnce.InMemoryRunEventStore.Append` | crates/vv-agent/src/checkpoint.rs:820-880 | In place: refines the specified append |
| `AppendOnce.SqliteThreadStore.MaxSequence` | crates/vv-agent/src/app_server/thread_store.rs:302-357 | The loop finds the largest sequence of a thread, zero if there is none |
| `AppendOnce.SqliteThreadStore.Append` | crates/vv-agent/src/app_server/thread_store.rs:302-357 | In place: refines the specified append |
| `Approval.LivesAreTracked` | crates/vv-agent/src/approval.rs:114-305 | In every run an id registered at most once follows its life cycle (open, settled, gone) exactly, and the table shows where it is |
| `Approval.StepTracks` | crates/vv-agent/src/approval.rs:114-305 | Each call moves the life of an id as the life cycle allows |
| `Approval.BooksBalance` | crates/vv-agent/src/approval.rs:114-305 | Over every run and any number of registrations of an id: each registration is decided, abandoned undecided or still open, and each decision is delivered, forgotten undelivered or still in the table as written last; so decisions written, plus one if the id is open, never exceed registrations |
| `Approval.StepBalances` | crates/vv-agent/src/approval.rs:114-305 | What each call does to those books |
| `Approval.DeliveredAsWritten` | crates/vv-agent/src/approval.rs:265-273 | Every decision a waiter is given is the one written last before, however often the id is registered |
| `Approval.WaitersAreTold` | crates/vv-agent/src/approval.rs:254-305 | In every run a waiter is told the decision on record, as written last, or, with its time up and nothing decided, a timeout; with neither it blocks |
| `Approval.ApprovalsWereWritten` | crates/vv-agent/src/approval.rs:254-305 | In every run an answer that lets the tool run was written under the id before |
| `Approval.DetailsDoNotMatter` | crates/vv-agent/src/tools/policy.rs:217-226 | Details wrapped around a decision never change its action, and each action belongs to one kind of decision |
| `Approval.RegistrationFinds` | crates/vv-agent/src/approval.rs:114-132 | A registration finds the denial of the cancellation in force, or a session approval at once for a tool granted before, and otherwise nothing yet |
| `Approval.CancelledIff` | crates/vv-agent/src/approval.rs:220-252 | The broker is cancelled exactly from a cancellation to the next reset, with the reason given last |
| `Approval.AnyDecisionsCanBeDelivered` | crates/vv-agent/src/approval.rs:114-273 | The bound is met: for every list of decisions that grant nothing for the session there is a run that registers the id once for each and writes and delivers exactly that list |
| `Approval.AtMostOnceIff` | crates/vv-agent/src/approval.rs:114-132 | A number of registrations guarantees at most one decision written, and at most one delivered, exactly when it is at most one |
| `Approval.RegisteringAgainReopens` | crates/vv-agent/src/approval.rs:114-132 | Registering a used id again lets one more decision be written under it |
| `Approval.DecidedAndDeliveredOnce` | crates/vv-agent/src/approval.rs:134-164 | A decision is written at most once, stays until the request leaves, and is delivered at most once, as written |
| `Approval.EveryRunIsConsistent` | crates/vv-agent/src/approval.rs:114-252 | While cancelled nothing is undecided; a stored session approval implies its tool is granted |
| `Approval.OverrideIsNeverTaken` | crates/vv-agent/src/approval.rs:134-164 | While cancelled resolve always fails and changes nothing; whenever it succeeds it stores the caller's own decision |
| `Approval.CancellationDeniesLaterRequests` | crates/vv-agent/src/approval.rs:220-242 | From a cancellation until reset or repeated, every id registered is denied with its reason |
| `Approval.GrantedIffResolved` | crates/vv-agent/src/approval.rs:151-159 | A tool is granted exactly when some successful resolve allowed it for the session |
| `Approval.GrantsNeverShrink` | crates/vv-agent/src/approval.rs:134-174 | Grants survive every later call |
| `Approval.ApprovalBroker.RegisterRequest` | crates/vv-agent/src/approval.rs:114-132 | In place: refines the specified registration |
| `Approval.ApprovalBroker.ResolveRequest` | crates/vv-agent/src/approval.rs:134-164 | In place: succeeds exactly on an undecided request |
| `Approval.ApprovalBroker.AllowsToolForSession` | crates/vv-agent/src/approval.rs:166-173 | True exactly when a request registered now would be approved for the session at once |
| `Approval.ApprovalBroker.DiscardRequest` | crates/vv-agent/src/approval.rs:207-218 | In place: answers whether anything was removed |
| `Approval.ApprovalBroker.Cancel` | crates/vv-agent/src/approval.rs:220-242 | The loop denies every undecided request, keeps every decided one, and the count is the number denied |
| `Approval.ApprovalBroker.CountUndecided` | crates/vv-agent/src/approval.rs:228-232 | The loop counts exactly the undecided requests |
| `Approval.ApprovalBroker.WaitPass` | crates/vv-agent/src/approval.rs:263-296 | One pass delivers and removes a decided request, or removes it when time is up, or changes nothing |
| `Approval.ApprovalBroker.WaitBlocking` | crates/vv-agent/src/approval.rs:254-305 | Against any behaviour of the other callers the waiter answers at the first pass that finds the request decided or its time up |
| `ThreadState.StepRefines` | crates/vv-agent/src/app_server/thread_state.rs:45-262 | Each call acts on each thread as on that thread's view alone |
| `ThreadState.ThreadsAreIndependent` | crates/vv-agent/src/app_server/thread_state.rs:45-262 | Every run of the tables is a family of independent threads, each driven by its own calls and by departing connections |
| `ThreadState.ViewsDetermine` | crates/vv-agent/src/app_server/thread_state.rs:21-28 | Nothing is stored that no thread can see |
| `ThreadState.EveryRunIsSound` | crates/vv-agent/src/app_server/thread_state.rs:45-226 | A closed thread has no subscriber, active turn or durable resume; no subscriber set or follow-up queue is stored empty |
| `ThreadState.FailedSnapshotRestoresIff` | crates/vv-agent/src/app_server/thread_state.rs:56-90 | A failed snapshot restores any tables exactly, unless an empty subscriber set was stored |
| `ThreadState.StoredEmptySetIsLost` | crates/vv-agent/src/app_server/thread_state.rs:56-90 | With an empty set stored for the thread, a failed snapshot drops its entry |
| `ThreadState.FailedSnapshotRestores` | crates/vv-agent/src/app_server/thread_state.rs:56-90 | In every reachable state a failed snapshot restores the prior state exactly |
| `ThreadState.ClosedIff` | crates/vv-agent/src/app_server/thread_state.rs:92-149 | A thread is closed exactly when some unsubscription left nothing live and nothing opened it since |
| `ThreadState.FieldsAreHeld` | crates/vv-agent/src/app_server/thread_state.rs:45-262 | The active turn, durable resume and pending approval are those set last and not cleared by their own id since; a connection is subscribed exactly when it joined and has not left since |
| `ThreadState.FollowUpsAreFifo` | crates/vv-agent/src/app_server/thread_state.rs:202-226 | Popped follow-ups then the waiting ones are the queued ones in order |
| `ThreadState.ThreadStateManager.AddConnection` | crates/vv-agent/src/app_server/thread_state.rs:45-54 | In place: subscribes, telling whether it was new and whether the thread was closed |
| `ThreadState.ThreadStateManager.SubscribeWithSnapshot` | crates/vv-agent/src/app_server/thread_state.rs:56-90 | In place: refines the specified subscription with its roll back |
| `ThreadState.ThreadStateManager.UnsubscribeOne` | crates/vv-agent/src/app_server/thread_state.rs:92-107 | In place: answers exactly whether the thread has nothing live left |
| `ThreadState.ThreadStateManager.RetainOthers` | crates/vv-agent/src/app_server/thread_state.rs:109-115 | The retain loop drops the connection everywhere and the entries that become empty |
| `ThreadState.ThreadStateManager.StartTurn` | crates/vv-agent/src/app_server/thread_state.rs:144-149 | In place: opens the thread |
| `ThreadState.ThreadStateManager.FinishTurn` | crates/vv-agent/src/app_server/thread_state.rs:191-200 | In place: only the turn of the same id is cleared |
| `ThreadState.ThreadStateManager.Enqueue` | crates/vv-agent/src/app_server/thread_state.rs:202-210 | In place: appends |
| `ThreadState.ThreadStateManager.Dequeue` | crates/vv-agent/src/app_server/thread_state.rs:212-226 | In place: takes the oldest and removes an emptied queue |
| `RunHandle.TerminalEventSeen` | crates/vv-agent/src/run_handle.rs:421-460 | True exactly when the saturating handoff depth ends at zero and a terminal event occurs after the last handoff start or continuing completion |
| `RunHandle.DepthIsLargestSuffixBalance` | crates/vv-agent/src/run_handle.rs:421-447 | The saturating depth is the largest plain balance of starts over completions of any suffix |
| `RunHandle.NoHandoffOpenIff` | crates/vv-agent/src/run_handle.rs:421-447 | The depth is zero exactly when no suffix has more starts than completions |
| `RunHandle.ActiveSubRunIds` | crates/vv-agent/src/run_handle.rs:462-476 | A sub-run is active exactly when it started and was not completed since |
| `RunHandle.GenerationsCountAttaches` | crates/vv-agent/src/run_handle.rs:372-381 | The generation is the number of attaches, cycling through 1..2^64-1, and an active controller is the latest attached |
| `RunHandle.DetachHitsIff` | crates/vv-agent/src/run_handle.rs:383-397 | The generation of an earlier attach detaches the present controller exactly when a multiple of 2^64-1 attaches happened since |
| `RunHandle.ControllerBinding.AttachController` | crates/vv-agent/src/run_handle.rs:372-381 | In place: refines the specified attach |
| `RunHandle.ControllerBinding.DetachController` | crates/vv-agent/src/run_handle.rs:383-397 | In place: answers whether it detached |
| `ContextAssembly.SortIsStable` | crates/vv-agent/src/context_providers.rs:222-227 | The sort orders by priority, stable first, then UTF-16 id, and keeps equal keys in input order |
| `ContextAssembly.StableOrderIsUnique` | crates/vv-agent/src/context_providers.rs:222-227 | Only one list is ordered and keeps equal keys in input order |
| `ContextAssembly.SortKeepsFragments` | crates/vv-agent/src/context_providers.rs:222-227 | The sort is a permutation |
| `ContextAssembly.SortIgnoresInputOrder` | crates/vv-agent/src/context_providers.rs:222-227 | With no two fragments sharing priority, stability and id the sort does not depend on input order |
| `Unicode.Utf16Injective` | crates/vv-agent/src/context_providers.rs:226-226 | Different ids have different UTF-16 keys |
| `ContextAssembly.TrimCuts` | crates/vv-agent/src/context_providers.rs:235-238 | Trimming cuts only whitespace at both ends; a text is skipped exactly when it is blank |
| `ContextAssembly.CandidatesAre` | crates/vv-agent/src/context_providers.rs:235-239 | The candidates are exactly the fragments that are not blank, in order, with their texts trimmed |
| `ContextAssembly.GreedyFits` | crates/vv-agent/src/context_providers.rs:234-262 | The kept texts joined never exceed the limit |
| `ContextAssembly.OmittedNeverFits` | crates/vv-agent/src/context_providers.rs:239-248 | No omitted text would fit even after the final prompt |
| `ContextAssembly.GreedyIsMaximal` | crates/vv-agent/src/context_providers.rs:234-262 | Any other choice whose prompt fits omits an earlier text that the fill keeps |
| `ContextAssembly.Assemble` | crates/vv-agent/src/context_providers.rs:218-275 | The loop computes the specified bundle, its running total being the length of the joined prompt |
| `ContextAssembly.BundleAccount` | crates/vv-agent/src/context_providers.rs:218-275 | total_chars is the length of the prompt and within the limit; every non-blank fragment is kept or omitted exactly once in sorted order |
| `ContextAssembly.NoOmittedFragmentFits` | crates/vv-agent/src/context_providers.rs:239-248 | The same maximality for the bundle, in terms of its prompt and its limit |
| `ContextAssembly.BundleIgnoresInputOrder` | crates/vv-agent/src/context_providers.rs:218-275 | With distinct sort keys the whole bundle does not depend on input order |
| `ContextAssembly.SectionsAreInOrder` | crates/vv-agent/src/context_providers.rs:222-227 | The sections of a bundle come by priority, lowest first, then stable before volatile, then by the UTF-16 units of their ids |
| `ContextAssembly.HashCoversStableSections` | crates/vv-agent/src/context_providers.rs:277-287 | The stable hash is the hash of the metadata of exactly the kept stable sections, in order; a bundle is refused exactly when these cannot be hashed |
| `ContextAssembly.VolatileSectionsDoNotCount` | crates/vv-agent/src/context_providers.rs:277-287 | Bundles with the same kept stable sections have the same hash |
| `ContextAssembly.MetadataNames` | crates/vv-agent/src/context_providers.rs:140-158 | The metadata of a section names all of it but its priority, and an empty source counts as none |
| `ContextAssembly.SourcesAreTheLast` | crates/vv-agent/src/context_providers.rs:249-251 | The sources are those of the kept sections, the last one for a repeated id |
| `ControllerWire.DigestFieldIff` | crates/vv-agent/src/checkpoint/controller.rs:231-240 | A digest field is read exactly when it is a lowercase SHA-256 text |
| `HostInteraction.HandleExact` | crates/vv-agent/src/checkpoint/controller_host.rs:49-76 | What is read is valid and prints back as exactly the same value, so reading is stable |
| `HostInteraction.HandleRoundTrip` | crates/vv-agent/src/checkpoint/controller_host.rs:25-76 | A value can be written and read back as itself exactly when it is valid |
| `HostInteraction.RequestExact` | crates/vv-agent/src/checkpoint/controller_host.rs:285-337 | What is read is valid and prints back as exactly the same value, so reading is stable |
| `HostInteraction.RequestRoundTrip` | crates/vv-agent/src/checkpoint/controller_host.rs:206-337 | A value can be written and read back as itself exactly when it is valid |
| `HostInteraction.RequestDigestIdentifies` | crates/vv-agent/src/checkpoint/controller_host.rs:269-271 | Valid requests with the same digest are the same request, barring a collision of their two bodies |
| `HostInteraction.NewRequestIff` | crates/vv-agent/src/checkpoint/controller_host.rs:185-204 | The constructor succeeds exactly on fields within their bounds, and its result reads back |
| `HostInteraction.RequestRefusals` | crates/vv-agent/src/checkpoint/controller_host.rs:206-256 | A refused request carries the code of invalid fields, or that of overlong content when only the prompt is too long |
| `HostInteraction.MessageRefusals` | crates/vv-agent/src/checkpoint/controller_host.rs:360-380 | A message is valid exactly from the user, with content that is not blank or too long, and each refusal has its code |
| `HostInteraction.ResponseRefusals` | crates/vv-agent/src/checkpoint/controller_host.rs:475-521 | A refused response carries the code of invalid fields, or that of its message |
| `HostInteraction.HostShapeRefusals` | crates/vv-agent/src/checkpoint/controller_host.rs:285-585 | A value that is not an object, or has not exactly the fields of its codec, is refused with the code of that codec |
| `HostInteraction.MessageExact` | crates/vv-agent/src/checkpoint/controller_host.rs:386-401 | What is read is valid and prints back as exactly the same value, so reading is stable |
| `HostInteraction.MessageRoundTrip` | crates/vv-agent/src/checkpoint/controller_host.rs:360-401 | A value can be written and read back as itself exactly when it is valid |
| `HostInteraction.ResponseExact` | crates/vv-agent/src/checkpoint/controller_host.rs:523-585 | What is read is valid and prints back as exactly the same value, so reading is stable |
| `HostInteraction.ResponseRoundTrip` | crates/vv-agent/src/checkpoint/controller_host.rs:466-585 | A value can be written and read back as itself exactly when it is valid |
| `HostInteraction.NewResponseIff` | crates/vv-agent/src/checkpoint/controller_host.rs:419-447 | The constructor succeeds exactly on fields within their bounds, keeps the message and reads back |
| `ControllerCommands.VariantExact` | crates/vv-agent/src/checkpoint/controller_command.rs:346-415 | What is read is valid and prints back as exactly the same value, so reading is stable |
| `ControllerCommands.VariantRoundTrip` | crates/vv-agent/src/checkpoint/controller_command.rs:328-415 | A value can be written and read back as itself exactly when it is valid |
| `ControllerCommands.CommandExact` | crates/vv-agent/src/checkpoint/controller_command.rs:533-575 | What is read is valid and prints back as exactly the same value, so reading is stable |
| `ControllerCommands.CommandRoundTrip` | crates/vv-agent/src/checkpoint/controller_command.rs:455-575 | A value can be written and read back as itself exactly when it is valid |
| `ControllerCommands.CommandDigestIdentifies` | crates/vv-agent/src/checkpoint/controller_command.rs:452-531 | Valid commands have the same digest exactly when they are the same command, barring a collision of their two bodies |
| `ControllerCommands.NewCommandIff` | crates/vv-agent/src/checkpoint/controller_command.rs:429-448 | The constructor succeeds exactly on parts within their bounds, and its result reads back |
| `ControllerCommands.ReceiptExact` | crates/vv-agent/src/checkpoint/controller_command.rs:676-746 | What is read is valid and prints back as exactly the same value, so reading is stable |
| `ControllerCommands.ReceiptRoundTrip` | crates/vv-agent/src/checkpoint/controller_command.rs:593-746 | A value can be written and read back as itself exactly when it is valid |
| `ControllerCommands.ValidReceiptIff` | crates/vv-agent/src/checkpoint/controller_command.rs:593-671 | What a valid receipt is, field by field: only a recovery has a destination and may still be under way |
| `ControllerCommands.ValidWakeIff` | crates/vv-agent/src/checkpoint/controller_command.rs:773-785 | There are two kinds of valid wake: none, and a recovery of a positive cycle |
| `ControllerCommands.CommandRefusals` | crates/vv-agent/src/checkpoint/controller_command.rs:463-531 | A refused command carries the code of an invalid digest, unless its handle or variant is at fault first |
| `ControllerCommands.StateRefusals` | crates/vv-agent/src/checkpoint/controller_command.rs:593-785 | Every invalid receipt and wake carries the code of an invalid state |
| `ControllerCommands.ShapeRefusals` | crates/vv-agent/src/checkpoint/controller_command.rs:346-918 | A value that is not an object, or has not the fields of its codec, is refused with the code of that codec |
| `ControllerCommands.WakeExact` | crates/vv-agent/src/checkpoint/controller_command.rs:790-813 | What is read is valid and prints back as exactly the same value, so reading is stable |
| `ControllerCommands.WakeRoundTrip` | crates/vv-agent/src/checkpoint/controller_command.rs:757-813 | A wake reads back exactly when it is valid and its cycle is at most 2^53-1, which the validator does not check; a recovery wake is valid exactly for a positive cycle |
| `ControllerCommands.LateWakeIsNotReadable` | crates/vv-agent/src/checkpoint/controller_command.rs:773-813 | The recovery wake of the first cycle beyond 2^53-1 is valid and is not read back |
| `ControllerCommands.ResolutionExact` | crates/vv-agent/src/checkpoint/controller_command.rs:852-918 | What is read is readable (its receipt and wake valid, its cycle JSON-safe, or its error in bounds) and prints back as exactly the same value |
| `ControllerCommands.ResolutionRoundTrip` | crates/vv-agent/src/checkpoint/controller_command.rs:838-918 | A resolution reads back exactly when its receipt and wake do, or its error is non-blank and short enough |
| `HostRecords.RecordExactIff` | crates/vv-agent/src/checkpoint/controller_command.rs:168-308 | What is read is valid and prints back as the same value exactly when the last error was not an explicit null |
| `HostRecords.RecordStable` | crates/vv-agent/src/checkpoint/controller_command.rs:168-308 | Reading, printing and reading again gives the same record |
| `HostRecords.RecordRoundTrip` | crates/vv-agent/src/checkpoint/controller_command.rs:23-308 | A record reads back exactly when it is valid and its claim token, revisions and last error are within bounds that only the reader checks |
| `HostRecords.ValidIsBounded` | crates/vv-agent/src/checkpoint/controller_command.rs:23-167 | The bounds of all other fields follow from validity, through the embedded request and response |
| `HostRecords.ActiveRecordIsValidIff` | crates/vv-agent/src/checkpoint/controller_command.rs:23-86 | A record made for a request is valid exactly when the request is, the checkpoint key is an identity and the attempt is JSON-safe |
| `HostRecords.ResolvedRecordIsValidIff` | crates/vv-agent/src/checkpoint/controller_command.rs:87-150 | A response resolves an active record exactly when it is valid and names its interaction, cycle and request digest |
| `HostRecords.ClaimedRecordIsValidIff` | crates/vv-agent/src/checkpoint/controller_command.rs:99-167 | A resolved record taken by a worker is valid exactly when the claim token is not empty and the lease is JSON-safe |
| `HostRecords.ConsumedRecordIsValidIff` | crates/vv-agent/src/checkpoint/controller_command.rs:114-128 | A resolved record, claimed or not, is consumed exactly by giving the revision and clearing the claim |
| `HostRecords.ValidRecordIff` | crates/vv-agent/src/checkpoint/controller_command.rs:23-167 | What a valid record is, field by field, with which fields each state carries |
| `HostRecords.RecordShapeRefusals` | crates/vv-agent/src/checkpoint/controller_command.rs:196-220 | A value that is not an object, or misses a field, or has one too many, is refused as invalid fields |
| `HostRecords.LongClaimTokenIsNotReadable` | crates/vv-agent/src/checkpoint/controller_command.rs:150-308 | For every digest there is a valid claimed record, with a claim token of 513 bytes, that is not read back |
| `HostRecords.NullLastErrorIsDropped` | crates/vv-agent/src/checkpoint/controller_command.rs:186-308 | Any readable record without a last error is also read from its fields with an explicit null last error, which printing drops |
| `HostRecords.SomeNullLastErrorIsDropped` | crates/vv-agent/src/checkpoint/controller_command.rs:186-308 | For every digest there is such a value |
| `HostRecords.ResponseAnswersThisRequest` | crates/vv-agent/src/checkpoint/controller_command.rs:136-150 | The response of a valid record refers to exactly that record's request, barring a collision |
| `HostRecords.ResponseOperationIsFree` | crates/vv-agent/src/checkpoint/controller_command.rs:136-150 | The operation and tool call of the response are not tied to the request: any other identities give a record just as valid |
| `HostRecords.RecordIdIdentifies` | crates/vv-agent/src/checkpoint/controller_recovery.rs:630-641 | Valid records have the same id exactly when they have the same checkpoint and the same request, barring collisions |

## Left out

- Checkpoint stores (claim, resolve, consume, lease renewal) and the renewal outcome codec: not part of this model.
- Recovery envelope, recovery result, notification, outcome, suspended-origin and wake-record codecs: the same kind of strict codec as those modelled; they would only add members of a kind already proved.
- `derive_controller_command_id` and `controller_receipt_outbox_id`: one digest each, with the same argument as the record id.
- Which run events a replay query wants (its run and child runs) is a parameter of the replay.
- SHA-256 and canonical JSON (RFC 8785): a digest is a function parameter.
- Task scheduling, channel capacity, condition-variable timing and poisoned locks.
- Dropping a request's future before it finishes: every release is of a granted request.
- Clearing a memory session while a commit is under way: session operations run one at a time.
- SQL text, schema checks and migrations; timestamps are reals, and their rounding is not modelled.
- Notifications, broadcasts, plain responses and the method table of the outgoing sender; the wrap-around of its 64-bit counter.
- The setters of durable resumes and pending approvals and `reopen` are modelled as steps only, not as methods of the manager class.
- `cancel_with_reason` and `state` of the run handle, and the count of open handoffs overflowing a machine word.
- The approval broker's test-only grant and its read-only lookup of a pending request.
- Builders, configuration, command line, model clients, tracing and the runner.
