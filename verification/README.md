# A verified model of the Hanzo Tasks engine

The project models the durable execution engine of Hanzo Tasks together with its
replaying worker, and the algorithmic pieces around them, and proves what their
comments and documentation promise. Every statement is for all inputs, all runs
or all reachable states of the model.

How the parts fit together:

- **Durable execution.** `History` and `Replay` describe a workflow as a
  deterministic function from the answers it has observed to its next call, and
  an episode as its replay against a history. `Traces` says what a workflow does
  without replaying it: the answers it observes one after another, the calls it
  makes along them and the call it ends at. `Worker` is the worker's mutable
  environment and proves that it ships exactly what such a trace asks for. `Durable` gives every engine
  operation as the list of writes it makes to the store, so that a crash is a
  prefix of the list; `Engine` is the engine as a class and proves that each
  operation makes exactly those writes. `Ledger`, `Protocol`, `Cuts`, `Drivers`,
  `Wakeups`, `Attempts` and `Soundness` prove what holds in every reachable state;
  `Effects` writes out what each operation does to a run's row, events, records,
  tokens and tasks; and `Scenarios` gives runs from the initial state that reach what their exact
  conditions warn of. Runs are considered in three regimes: a crash between any
  two writes (`AnyCut`), crashes only between operations (`BetweenOperations`),
  and a crash between any two writes with no request served between boot and
  recovery (`QuietBoot`).
- **Dispatcher.** `Rounds` says whose turn it is over any number of sends;
  `Dispatcher` holds the two-way subscription index, delivery in turn with pruning,
  and the backlogs.
- **Ordered store.** `ShardDb` is the range scan; `OpenIndex` the open-run index
  and `Retention` with `Purger` the resumable purge over it; `HistoryPages` is
  history paging.
- **Runs.** `Runs`, `Lineage` and `RunTable` are starts, conflict policies,
  continue-as-new, children and the choice of the current run, `RunLaws` what each
  does to the rows and histories, written out; `Interrupted` adds
  crashes between the two halves of continue-as-new and start-child.
- **Queries.** `Visibility` is the grammar and the parser as functions of the
  tokens left, `Lexer` the tokenizer and the printing of trees, `QueryParser` the
  parser with its moving position. `Lexemes` says what a query is: blanks and
  lexemes, each as long as it can be, whose tokens the grammar derives.
- **ZAP.** `ZapWire` is the message format, `ZapBuilder` the growing buffer,
  `Envelope` the frames, `ZapStream` the deframing and routing. `ZapFormat` gives
  every byte of what is written and of what any bytes are read as.
- **Leases and channels.** `Leases` and `ClaimQueue`; `Channel` and
  `WorkflowChannel`.
- **Retries.** `Retry`, over real numbers.

Assumptions: each engine operation is one atomic step except where crashes
between writes are modelled. In the source cancel and terminate do not take the
run lock, and start and signal-with-start take no lock on the workflow id, so two
of them may interleave between looking up the current run and writing the new one;
`Runs.SingleLiveRun` and everything built on it rests on their being atomic.
Generated run ids, workflow ids and tokens are new; one namespace; the
clock, generated ids, success of a send and of decoding are parameters or
arbitrary. Stored rows and payloads are values; their JSON form is not modelled.

Where the code does not meet what is said about it, the model follows the code
and the exact condition is proved:

- `pkg/tasks/embed.go:196-199` says recovery means no lost and no double
  execution. The listener starts before recovery (`pkg/tasks/embed.go:191`), and
  recovery adds a driver for every unfinished activity: one driver per activity
  survives exactly when nothing was driven in between
  (`Drivers.RecoveryKeepsOneDriver`, reached in `Scenarios.TwoDriversReachable`).
  For the same reason recovery may drop the index entry of a start whose row is
  about to be written (`OpenIndex.RecoveryRace`, reached in
  `OpenIndex.RaceReachable`).
- A crash between the terminal record of an activity and its event loses the
  outcome for good (`Attempts.CutCompletion`, `Attempts.LostForever`, reached in
  `Scenarios.LostOutcomeReachable`).
- Replay soundness fails for a crash right after an outcome event or a child start,
  whose row does not count it yet: it is shipped to a worker and later overwritten.
  It fails for a crash inside a start after its row, with or without its first
  event: recovery ships the run, and the first event of the answer takes the first
  key, so that the history does not begin with the input. It holds for a crash
  after any other write, an event that tells a replay nothing among them
  (`Soundness.ReplaySoundness`). This is exact: every crash that is not clean tears
  in one of five ways (`Cuts.CleanIffNoTear`), and soundness holds for every
  workflow exactly when no crash tears in any of them
  (`Scenarios.SoundExactlyWithoutTears`, a run for each way in
  `Scenarios.EveryTearBreaks`).
- A crash inside continue-as-new loses the successor exactly when there was an open
  run to continue: after the terminal row the run names none
  (`Interrupted.LeavesUnnamedIff`), after its event it names one that is missing
  (`Interrupted.LosesSuccessorIff`); both are reached in
  `Interrupted.LostSuccessorReachable`. A crash between the start of a child and the
  parent's event makes the command start a second child exactly when it names no
  workflow id, or later on when no run under its id is open any more
  (`Interrupted.ReappliedChild`, `Interrupted.SecondChildIff`, reached in
  `Interrupted.TwoChildrenReachable`).
- `pkg/tasks/dispatch.go:264-268` says subscribers are tried round robin. After a
  failed send the index has moved on and the list has closed up behind it, so that
  with three or more subscribers the next one is passed over, unless the failed one
  was the last of the list (`Rounds.FailureSkips`). Every subscriber is still tried
  before the task is queued (`Dispatcher.Dispatch.Deliver`).
- `prefixUpperBound` yields the prefix range exactly for prefixes with a byte
  below 0xff (`ShardDb.RangeIsPrefixIff`).
- The first retry delay is not clamped to the maximum
  (`Retry.FirstDelayInOrder`).
- A start with an empty or unrecognised conflict policy makes a second open run
  (`Runs.StartLeavesTwoIff`, `Runs.UnrecognisedLeavesTwo`).
- An open activity is started without a lease, and so never reaped nor handed out
  again, exactly when its first heartbeat since it was last scheduled came before
  a hand-out (`Leases.ParkedIffBeatFirst`, `Leases.BeatParksIff`,
  `Leases.ParkedStays`, reached in `Leases.HeartbeatFirstParks`).
- A terminal activity is changed by exactly one kind of step: a start under its
  own id and run id, which replaces it (`Leases.TerminalChangesIff`).
- Senders parked on an unbuffered channel when it is closed are passed over by
  the blocking receive and still served by the non-blocking one
  (`Channel.ReceivesAgreeIff`, `Channel.ClosedKeepsParked`, reached in
  `Channel.ReceivesDiffer`).
- A bare ZAP message with zero flags is routed as a call or an answer
  (`ZapStream.BareIff`); a node id over sixty bytes is read as no id
  (`Envelope.HandshakeRoundTrip`).
- `sdk/typescript/src/workflow/runtime.ts:73-79` calls continue-as-new
  unsupported; the code below it emits the command, and the model has it.

## Model

| member | source | states |
|---|---|---|
| Retry.ShouldRetry | pkg/sdk/temporal/retry.go:83-102 | A failure is retried exactly when it is retryable, its type is not listed as final and the normalized attempt limit is not reached. |
| Retry.NextInterval | pkg/sdk/temporal/retry.go:107-123 | The loop that stops at the cap computes the capped exponential of the specification. |
| Retry.DelayLaw | pkg/sdk/temporal/retry.go:59-123 | Under any policy the delay before retry n is the initial interval multiplied n minus one times, rounded down and up to the maximum, with one second, two and a hundred times the initial interval where they are not given; the first is not cut. |
| Retry.GrownIsProduct | pkg/sdk/temporal/retry.go:107-123 | Repeated multiplication is initial times coefficient to the power n. |
| Retry.DelayIsMonotoneAndCapped | pkg/sdk/temporal/retry.go:107-123 | From the second retry on delays never shrink and never exceed the normalized maximum. |
| Retry.FirstDelayInOrder | pkg/sdk/temporal/retry.go:115-122 | The first delay is at most the second exactly when the initial interval is within the maximum. |
| Durable.TryAgainIsShouldRetry | pkg/tasks/durable.go:379-393 | The engine's decision to retry a record is the SDK's, under the effective policy of the record. |
| Replay.RunMonotone | pkg/sdk/worker/env.go:252-302 | A replay that is answered more makes the same calls first and ends the same once it ends. |
| Replay.EpisodeMonotone | pkg/sdk/worker/env.go:157-302 | A replay knowing more makes the same calls with the same sequence numbers, and each command of the shorter one is already answered or comes out again identically. |
| Replay.ReplayIsDirect | pkg/sdk/worker/replay.go:98-125 | Replay is direct execution cut at the first outcome that history does not have. |
| Replay.CommandsBySlot | pkg/sdk/worker/env.go:252-302 | The commands of an episode are exactly those its calls ask for, each under its call's sequence number. |
| Worker.WorkerEnv.LoadHistory | pkg/sdk/worker/env.go:157-172 | The maps filled by the loop are the view of the history, with the input of its started event. |
| Worker.WorkerEnv.ExecuteActivity | pkg/sdk/worker/env.go:252-302 | The call takes the next sequence number, returns the recorded outcome or a blocked future, and adds the specified command. |
| Worker.WorkerEnv.StartChildWorkflow | sdk/typescript/src/workflow/runtime.ts:253-275 | A child call resolves from history by sequence number or emits its command. |
| Worker.WorkerEnv.DrainCommands | pkg/sdk/worker/env.go:175-181 | What is drained is the commands of all calls made, in order. |
| Worker.RunWorkflowEpisode | pkg/sdk/worker/replay.go:113-125 | The calls made and the end reached are those of answers the workflow observes one after another, up to the call it returns, throws or continues at, or the await of an outcome that history does not have. |
| Worker.DispatchWorkflowTask | pkg/sdk/worker/dispatch.go:35-105 | For a workflow that comes back, the commands shipped are exactly those it wants given the delivered events, the calls in the order of their numbers and its end last. |
| Traces.ViewTells | pkg/sdk/worker/env.go:157-172 | The maps of the decider say what the events say: the input of the first started event, the last outcome and child under a number, and which numbers were scheduled. |
| Traces.RunStands | pkg/sdk/worker/replay.go:98-125 | Every state of an episode stands on a trace: its answers are observed one after another, its calls are those made along them, and it has ended or blocked only where the next call does. |
| Traces.MakesIff | pkg/sdk/worker/env.go:252-302 | An episode has a call under a number exactly when a trace of the workflow makes it there. |
| Traces.EndsIff | pkg/sdk/worker/dispatch.go:93-104 | An episode ends as returned, failed or continued exactly when a trace comes to that return, that throw or a future never made, or that continue. |
| Traces.DecisionIsWanted | pkg/sdk/worker/dispatch.go:93-104 | A command is shipped exactly when the workflow wants it: an activity with a type and arguments, on its own queue or the task's, not scheduled and without outcome; a child not started; completion, failure or continuation exactly when a trace returns, fails or continues; in the order of the numbers, the end last. |
| Ledger.HistoryAtMostOnce | pkg/tasks/engine.go:391-432 | With a crash between any two writes: ids are 1, 2, and so on, with at most one event beyond the row; at most one scheduled and one outcome event per sequence number and one closing event; each event stands on its durable record; an open run is indexed. |
| Ledger.OpSafe | pkg/tasks/durable.go:192-355 | Every write of every operation is permitted where it stands, so that the store is sound after it. |
| Ledger.SafeCut | pkg/tasks/durable.go:192-355 | A list of permitted writes may be cut anywhere and leaves a sound store. |
| Ledger.DoWrites | pkg/tasks/durable.go:192-551 | What an operation leaves in the store is its list of writes, all made. |
| Protocol.HistoryIsExact | pkg/tasks/engine.go:640-663 | Without a crash inside an operation event ids are exactly 1 up to the row's history length. |
| Protocol.CompletionAdvances | pkg/tasks/durable.go:267-355 | A response is ignored, recorded as a retry, or recorded as one outcome event; nothing recorded is taken back. |
| Cuts.CleanCutIsSettled | pkg/tasks/engine.go:640-663 | A crash inside an operation leaves the run begun with its input and no uncounted event that a replay reads exactly when it falls neither right after an outcome or child start nor inside a start after its row. |
| Cuts.CleanIffNoTear | pkg/tasks/engine.go:259-268 | A crash is clean exactly when it falls after none of: a completed event, a failed event, a child start, the row of a start, the first event of a start. |
| Cuts.SafeKept | pkg/tasks/durable.go:192-355 | However an operation is cut, the events its row counted, the specs and finished records of activities, and the end of a run all stand. |
| Drivers.OneDriverPerActivity | pkg/tasks/durable.go:238-374 | With a crash between any two writes and nothing served before recovery: in every reachable state of a recovered server each unfinished activity of an open run has exactly one live token or armed timer, and a finished one has none. |
| Drivers.RecoveryKeepsOneDriver | pkg/tasks/durable.go:525-551 | Recovery of any sound store drives every unfinished activity, and leaves one driver each exactly when nothing was driven before it. |
| Wakeups.NoLostWakeup | pkg/tasks/durable.go:165-184 | With a crash between any two writes: every completed, failed, signaled and child-started event in the history of an open run of a recovered server lies, with all before it, in the snapshot of a workflow task enqueued since the last restart. |
| Wakeups.SnapshotsArePrefixes | pkg/tasks/durable.go:165-184 | Without a crash inside an operation every snapshot shipped is a prefix of the history. |
| Attempts.RetriesAreBounded | pkg/tasks/durable.go:311-355 | An attempt never exceeds the effective maximum, and after that many accepted failures the activity is resolved. |
| Attempts.CutCompletion | pkg/tasks/durable.go:267-355 | Exactly which crash inside a completion loses its outcome: between record and event at once, between event and row with the next event appended. |
| Attempts.LostForever | pkg/tasks/durable.go:267-280 | A lost outcome is never put into history by any later run. |
| Soundness.LongerHistoryReplays | pkg/sdk/worker/env.go:157-302 | Episode monotonicity for one history extending another. |
| Soundness.StaleDecisionStands | pkg/sdk/worker/dispatch.go:93-104 | What a worker decides from an old snapshot, even one that ends in an event since overwritten, is still what the workflow asks for. |
| Soundness.ReplaySoundness | pkg/tasks/embed.go:2103-2120 | With stale and duplicate tasks, retries, recoveries, and crashes after any write but an outcome event, a child start, or the row or first event of a start: the history begins with the input; run in one go on the recorded outcomes, the workflow makes every scheduled call with the spec recorded and a child call for every child started; and a run completed, failed or continued, by its closing event or by its row, ended as that run ends. |
| Soundness.CutExplained | pkg/tasks/durable.go:192-355 | Writes that add only what the workflow asks for, cut anywhere, leave everything durable explained by running the workflow on the events the row counts. |
| Scenarios.TwoDriversReachable | pkg/tasks/embed.go:191-199 | A crash, then a start and a scheduled activity served before recovery, then recovery: two live tokens for one activity. |
| Scenarios.LostOutcomeReachable | pkg/tasks/durable.go:267-355 | Start, schedule, then a crash after the first write of a completion: the outcome is lost in an open run. |
| Scenarios.TornOutcomeReachable | pkg/tasks/durable.go:267-355 | Faithful workers and a crash between a completed or failed event and its row: the run returns that outcome, and its history holds none. |
| Scenarios.TornChildReachable | pkg/tasks/engine_commands.go:73-105 | Faithful workers and a crash between a child start and its row: the run returns that child's id, and its history holds no child. |
| Scenarios.TornStartReachable | pkg/tasks/engine.go:259-268 | A crash inside a start after its row, or after its event: the history does not begin with the input. |
| Scenarios.EveryTearBreaks | pkg/tasks/engine.go:640-663 | Each of the five ways of tearing has a run of faithful workers, torn in that way alone, that direct execution contradicts. |
| Scenarios.SoundExactlyWithoutTears | pkg/tasks/engine.go:640-663 | For any set of ways of tearing, all runs of all workflows agree with direct execution exactly when the set is empty. |
| Effects.ResponseLaw | pkg/tasks/durable.go:267-355 | A response to an unfinished activity of an open run: a result is recorded as that result; a failure within the attempts, retryable and not listed as final, adds no event but the next attempt's record and a timer; any other failure is recorded as that failure; an outcome wakes the run. |
| Effects.LateResponseLaw | pkg/tasks/durable.go:267-290 | A response under an unknown token, for a finished or missing activity or for an ended run leaves the store and the tasks as they are. |
| Effects.ScheduleLaw | pkg/tasks/durable.go:192-256 | A first schedule makes the record of attempt one, on the run's queue unless the activity names its own, the scheduled and started events, and a token; a repeated one does nothing. |
| Effects.TimerLaw | pkg/tasks/durable.go:361-374 | A timer dispatches the attempt its activity is at, with its event and one token, and only for an unfinished activity of a run with a row. |
| Effects.ClosingLaw | pkg/tasks/engine.go:391-432 | Complete, fail, acknowledged cancel and continue-as-new end an open run with the row's status, the one event and its payload that say so, and the index entry gone; a run that is not open stays. |
| Effects.OperatorLaw | pkg/tasks/engine.go:525-562 | Terminating ends an open run as terminated and the sweep of an unacknowledged cancel as canceled, each with its reason. |
| Effects.StartLaw | pkg/tasks/engine.go:259-292 | A start leaves an indexed running row on its queue, the input as the one event, and a task carrying it. |
| Effects.SignalLaw | pkg/tasks/engine.go:568-603 | A signal adds one event with its name and payload to an open run and wakes it, and does nothing to any other. |
| Effects.CancelLaw | pkg/tasks/engine.go:470-520 | The first cancel of an open run adds the request; with somebody subscribed the run is canceling, otherwise it is canceled with its event; a later one does nothing. |
| Effects.ChildLaw | pkg/tasks/engine_commands.go:73-105 | A child start adds the child it made under its number once and wakes an open run. |
| Effects.AnswerLaw | pkg/tasks/embed.go:2101-2120 | An answer consumes its token and applies its commands one after another; one under no token does nothing. |
| Effects.AnswerOnce | pkg/tasks/dispatch.go:406-415 | An answer given twice acts once. |
| Effects.RecoverLaw | pkg/tasks/durable.go:525-551 | Recovery marks every unfinished activity of an indexed open run started and changes nothing else in the store, or drops an entry the row contradicts. |
| Effects.RecoverDrives | pkg/tasks/durable.go:525-551 | Recovery puts each unfinished activity under a token of its own and gives the run a task. |
| Effects.RowTellsEnd | pkg/tasks/engine.go:391-432 | In every reachable state, with a crash between any two writes: once the row counts a closing event its status is completed, failed, canceled, terminated or continued exactly as that event says. |
| Effects.EndedIffClosed | pkg/tasks/engine.go:391-432 | Without a crash inside an operation a run has ended exactly when its history has the closing event. |
| Engine.RunEngine.AppendHistory | pkg/tasks/engine.go:640-663 | Event and row written in that order, or nothing when there is no row. |
| Engine.RunEngine.EnqueueWorkflowTask | pkg/tasks/durable.go:165-184 | A task carrying the history as it stands is enqueued under a new token. |
| Engine.RunEngine.StartWorkflow | pkg/tasks/engine.go:259-292 | Index entry, row, started event, then the first workflow task. |
| Engine.RunEngine.ApplyScheduleActivity | pkg/tasks/durable.go:192-231 | Nothing for a sequence number with a record; otherwise record, scheduled event and first dispatch. |
| Engine.RunEngine.DispatchActivityAttempt | pkg/tasks/durable.go:238-256 | The record marked started, its event, and a token. |
| Engine.RunEngine.CompleteWorkflowActivity | pkg/tasks/durable.go:267-355 | The response is recorded by exactly the writes a crash may cut; what they come to is Effects.ResponseLaw and Effects.LateResponseLaw. |
| Engine.RunEngine.RetryActivity | pkg/tasks/durable.go:361-374 | The record of the next attempt written and a timer armed. |
| Engine.RunEngine.FireRetryTimer | pkg/tasks/durable.go:361-374 | A fired timer dispatches the attempt unless the activity is finished or gone. |
| Engine.RunEngine.TerminalTransition | pkg/tasks/engine.go:391-432 | The closing writes, or nothing for a closed or missing run; what they come to is Effects.ClosingLaw. |
| Engine.RunEngine.ChildStartRecorded | pkg/tasks/engine_commands.go:109-123 | True exactly when history has a child start with that sequence number. |
| Engine.RunEngine.ApplyStartChild | pkg/tasks/engine_commands.go:73-105 | One child-started event per sequence number, then a workflow task. |
| Engine.RunEngine.RespondWorkflowTask | pkg/tasks/embed.go:2101-2120 | A token is consumed once and its commands are applied in order. |
| Engine.RunEngine.RespondActivityTask | pkg/tasks/embed.go:2125-2150 | A dispatch token is consumed once and its response judged. |
| Engine.RunEngine.SignalWorkflow | pkg/tasks/engine.go:568-603 | A signaled event and a workflow task for an open run, nothing otherwise. |
| Engine.RunEngine.CancelWorkflow | pkg/tasks/engine.go:470-520 | The cancel request recorded once, then canceling, or canceled when nobody is subscribed. |
| Engine.RunEngine.RecoverRun | pkg/tasks/durable.go:525-551 | A contradicted index entry dropped, or every unfinished activity dispatched and the run's task enqueued. |
| Dispatcher.Serve | pkg/tasks/dispatch.go:152-430 | After any requests, whatever sends fail: the tasks subscribers took and then the backlog are the tasks enqueued for the key in order, a key with a backlog has no subscriber, and the subscriptions in both tables are exactly those made, less those unsubscribed, those of departed peers and those with a failed send. |
| Rounds.EachTakesOne | pkg/tasks/dispatch.go:225-233 | As many sends in a row as there are subscribers, none failing, reach each of them exactly once, also from an index left over from a longer list. |
| Rounds.FailureSkips | pkg/tasks/dispatch.go:239-287 | After a failed send the next in turn is two places on, or the first of the list when the failed one was one of the last two. |
| Rounds.TurnIsRemainder | pkg/tasks/dispatch.go:225-233 | The place an index stands for is its remainder by the length of the list. |
| Dispatcher.EnqueueAll | pkg/tasks/dispatch.go:336-397 | Tasks enqueued one after another for a key with subscribers go out in turn, one send each while none fails, and as many as there are subscribers give each subscriber one. |
| Dispatcher.RemoveDrops | pkg/tasks/dispatch.go:239-262 | Removing an id drops exactly that subscription and shortens the list by one. |
| Dispatcher.RemoveFrom | pkg/tasks/dispatch.go:239-262 | The search loop computes the list without the first entry of the id. |
| Dispatcher.Dispatch.Pick | pkg/tasks/dispatch.go:225-233 | The subscriber whose turn it is, with the stored index moved on by one around the list; none exactly when nobody is subscribed. |
| Dispatcher.Dispatch.RemoveSub | pkg/tasks/dispatch.go:239-262 | The subscription leaves both tables, the others keep their order, and the index goes with the last one. |
| Dispatcher.Dispatch.Deliver | pkg/tasks/dispatch.go:269-307 | The task is offered to subscribers of the key in turn until one takes it or none is left; exactly those whose send failed are gone. |
| Dispatcher.Dispatch.Offer | pkg/tasks/dispatch.go:274-287 | One send, logged: taken, or the subscription leaves both tables. |
| Dispatcher.Dispatch.Try | pkg/tasks/dispatch.go:269-287 | One offer to the subscriber whose turn it is moves the turn on, and a failed one takes that subscriber out. |
| Dispatcher.Dispatch.Drain | pkg/tasks/dispatch.go:311-330 | The backlog goes out in turn, and afterwards a key with a backlog has no subscriber. |
| Dispatcher.Dispatch.Subscribe | pkg/tasks/dispatch.go:152-169 | Refused exactly without peer, namespace or queue; otherwise the new subscription joins the end of the turn and is there unless a send to it failed, as are the others, and the backlog went out in turn. |
| Dispatcher.Dispatch.Unsubscribe | pkg/tasks/dispatch.go:174-196 | Exactly the subscription of that id is gone, the others in their order. |
| Dispatcher.Dispatch.RemovePeer | pkg/tasks/dispatch.go:200-221 | Exactly the subscriptions of that peer are gone. |
| Dispatcher.Dispatch.Enqueue | pkg/tasks/dispatch.go:336-397 | The task is enqueued under a token never used before, offered in turn and taken, or queued last with nobody left; only subscriptions with a failed send are gone. |
| Dispatcher.Dispatch.Resolve | pkg/tasks/dispatch.go:406-430 | A token resolves to its task once. |
| ShardDb.PrefixUpperBound | pkg/tasks/store/shard_db.go:357-369 | The in-place carry computes the specified bound. |
| ShardDb.RangeIsPrefix | pkg/tasks/store/shard_db.go:357-369 | For a prefix with a byte below 0xff a key is in the range exactly when it starts with the prefix. |
| ShardDb.RangeIsPrefixIff | pkg/tasks/store/shard_db.go:357-369 | The range is the prefix's keys for every key exactly when the prefix has a byte below 0xff. |
| ShardDb.PagedScanIsListing | pkg/tasks/store/shard_db.go:202-239 | Feeding each page's last key to the next scan, with any positive limit, concatenates to the full listing. |
| ShardDb.Shard.Put | pkg/tasks/store/shard_db.go:154-167 | The table holds the new row under its key and every other row as before, in key order. |
| ShardDb.Shard.Del | pkg/tasks/store/shard_db.go:187-199 | The key is gone and every other row stays. |
| ShardDb.Shard.Scan | pkg/tasks/store/shard_db.go:211-239 | The loop returns the specified page. |
| ShardDb.Shard.List | pkg/tasks/store/shard_db.go:202-204 | A scan without limit is the listing of the prefix. |
| OpenIndex.MarkedIndexIsComplete | pkg/tasks/durable.go:404-489 | With a crash between any two writes, once the marker is set no open run lacks an entry. |
| OpenIndex.RecoveryRace | pkg/tasks/durable.go:502-551 | Dropping a contradicted entry keeps the index complete exactly when no start is between its entry and its row. |
| OpenIndex.RaceReachable | pkg/tasks/durable.go:502-551 | From an empty shard: a marked index, an entry put, dropped by recovery, and the row put leave an open run without an entry. |
| OpenIndex.Namespace.IndexOpenRuns | pkg/tasks/durable.go:464-489 | The paged build gives every open run an entry, adds no other, and then sets the marker. |
| OpenIndex.Namespace.Recover | pkg/tasks/durable.go:502-523 | Afterwards the entries are exactly the open rows and exactly those runs were driven again. |
| Retention.PurgeDeletesOneRun | pkg/tasks/retention.go:209-292 | A purge of a run cut anywhere leaves other runs' rows and keys, and the run's row until everything else of it is gone. |
| Retention.WalkRemovesExpired | pkg/tasks/retention.go:135-203 | From a fresh cursor, with any limits and crashes, once the walk wraps a run that was terminal and closed by every cutoff is gone: its row, its history, activity and open keys, the request keys of its id that name it and the trigger keys of its schedule that do. |
| Retention.PurgeTouchesOnlyExpired | pkg/tasks/retention.go:135-282 | A step takes away nothing but the row of the run next to purge, terminal and closed by the cutoff as it is now, and keys named after that run. |
| Retention.PassTakesOnlyExpired | pkg/tasks/retention.go:135-203 | Nothing appears or changes in a pass; a row that goes was terminal and closed by the cutoff, and a key that goes is named after such a row. |
| Retention.PassMakesProgress | pkg/tasks/retention.go:135-203 | A pass moves on the walk that an expired run has ahead of it. |
| Retention.OneOwner | pkg/tasks/retention.go:209-282 | A key belongs to at most one run. |
| Retention.BareIff | pkg/tasks/retention.go:209-282 | A run owns none of the keys left exactly when no history, activity or open key has its ids, no request key of its id names it and no trigger key of its schedule does; for an activity its history and request keys. |
| Purger.NamespaceShard.PurgeRun | pkg/tasks/retention.go:209-282 | A run goes exactly when its current row is terminal and closed by the cutoff, and then nothing named after it is left and nothing else is gone; any other is left. |
| Purger.NamespaceShard.Purge | pkg/tasks/retention.go:135-203 | Everything gone after a pass is a run expired at its cutoff, with its keys, and counted; the pass makes only steps of the walk; it starts over after it wraps, and otherwise leaves fewer rows ahead, by its limit. |
| Purger.NamespaceShard.PurgeUntilWrapped | pkg/tasks/retention.go:94-203 | Passes from a fresh cursor: only runs expired at the latest cutoff are gone; once the walk wraps every run expired at all cutoffs is gone with its keys; and more passes than there are rows always wrap. |
| Purger.NamespaceShard.PurgeNamespace | pkg/tasks/retention.go:57-141 | No pass exactly under a retention that cannot be read or is not positive; otherwise only terminal runs that closed the retention ago or longer, 720 hours by default, are gone, and counted. |
| HistoryPages.GetWorkflowHistory | pkg/tasks/engine.go:668-707 | The page is the first events past the cursor in the order asked for, with the next cursor; an error exactly when the run is not found. |
| HistoryPages.PageLaw | pkg/tasks/engine.go:668-707 | A page has at most the size asked for, or a hundred; it holds only events past the cursor in its direction, all of them unless it is full, and the id to go on from exactly when it is full. |
| HistoryPages.ReverseInPlace | pkg/tasks/engine.go:684-689 | The swapping loop reverses the list. |
| HistoryPages.PagingReturnsHistory | pkg/tasks/engine.go:668-707 | Reading from cursor zero with any page sizes returns every event once, oldest first forward and newest first backward. |
| Runs.CurrentIsBest | pkg/tasks/engine.go:339-385 | Describe finds a run exactly when there is one, and no run under the id is more current, which RunLaws.DescribeLaw writes out. |
| RunLaws.DescribeLaw | pkg/tasks/engine.go:339-385 | The run found under an id is an open one if there is any, else one that was not continued if there is any; among those it has the latest start, and among those the largest run id. |
| RunLaws.RepeatLaw | pkg/tasks/engine.go:216-232 | A request without a type is refused; a repeated request id returns the run it made; neither changes anything. |
| RunLaws.AskedAgain | pkg/tasks/engine.go:226-232 | Once a request has begun its run, asking again under its request id returns that run and changes nothing, whatever the policy. |
| RunLaws.ResolveLaw | pkg/tasks/engine.go:303-329 | With an open run under the id, by short or long policy name in any case: USE_EXISTING returns it, FAIL refuses, both changing nothing; TERMINATE_EXISTING terminates it with its event; any other goes on. |
| RunLaws.ResolveFree | pkg/tasks/engine.go:303-311 | With no open run under the id every policy goes on and changes nothing. |
| RunLaws.ConflictLaw | pkg/tasks/engine.go:216-323 | A first request under an id with an open run: FAIL refuses it and USE_EXISTING returns that run, both changing nothing; TERMINATE_EXISTING terminates that run and begins the new one; any other policy begins it beside. |
| RunLaws.Superseded | pkg/tasks/engine.go:303-323 | After TERMINATE_EXISTING under a new run id the old run is terminated, the new one goes on, and every other row is as it was. |
| RunLaws.FreeLaw | pkg/tasks/engine.go:233-292 | Under an id with no open run every policy begins the new run, running, with its type, start time, request id and first event. |
| RunLaws.SignalGoing | pkg/tasks/engine.go:617-633 | Signal-with-start under an id with an open run signals it and starts nothing. |
| RunLaws.SignalStarts | pkg/tasks/engine.go:617-633 | Otherwise it begins a run, whatever the policy, and signals it. |
| RunLaws.CloseLaw | pkg/tasks/engine.go:391-432 | A close gives an open run its status and event; a closed or missing one stays. |
| RunLaws.CancelLaw | pkg/tasks/engine.go:470-520 | A cancel of a running run adds the request and makes it canceling, or canceled with its event when nobody is subscribed; any other stays. |
| RunLaws.ContinueLaw | pkg/tasks/engine_commands.go:31-62 | An open run is closed as continued, naming its successor, which begins under the same id, of the type asked for or else of the same type. |
| RunLaws.ContinueRefused | pkg/tasks/engine_commands.go:31-45 | A run that has ended, is missing or whose input does not decode is left. |
| RunLaws.ChildLaw | pkg/tasks/engine_commands.go:73-105 | A start-child under an id with an open run attaches to it, otherwise it begins one; either way the parent records that run under the number. |
| RunLaws.ChildRefused | pkg/tasks/engine_commands.go:73-90 | Without a type, with a recorded child or with input that does not decode nothing happens. |
| Runs.SingleLiveRun | pkg/tasks/engine.go:216-323 | In every reachable state at most one run under an id is open, and describe without a run id returns it. |
| Runs.StartLeavesTwoIff | pkg/tasks/engine.go:303-323 | A start leaves two open runs exactly when it creates a run, without a recognised policy, beside another open one. |
| Runs.UnrecognisedLeavesTwo | pkg/tasks/engine.go:303-323 | Two starts under a policy that is not recognised leave two open runs. |
| Lineage.OneSuccessorOneChild | pkg/tasks/engine_commands.go:31-123 | A continued run has exactly one successor, which exists and succeeds no other; other runs have none; a sequence number has at most one child, which exists. |
| Interrupted.SingleLiveDespiteCrashes | pkg/tasks/engine_commands.go:31-105 | Crashes between the halves of continue-as-new and start-child never leave two open runs under one id. |
| Interrupted.LeavesUnnamedIff | pkg/tasks/engine.go:391-432 | A crash between the terminal row of a continued run and its event leaves it naming no successor exactly when there was an open run; then nothing under the id is open and the command does nothing again. |
| Interrupted.LosesSuccessorIff | pkg/tasks/engine_commands.go:31-62 | A crash before the successor's start leaves it named and missing exactly when there was an open run; then nothing under the id is open and the command does nothing again. |
| Interrupted.LostSuccessorStays | pkg/tasks/engine_commands.go:31-62 | A lost successor never comes about in any later run. |
| Interrupted.LostSuccessorReachable | pkg/tasks/engine_commands.go:31-62 | A start and a crash inside its continue-as-new reach both: a successor not named, and one named and missing. |
| Interrupted.SecondChildIff | pkg/tasks/engine_commands.go:73-105 | A start-child applied again attaches to the unrecorded child exactly when it is open under the id now named, and starts another run exactly when none there is open. |
| Interrupted.ReappliedChild | pkg/tasks/engine_commands.go:73-105 | Applied again right after the crash, the command starts a second child exactly when it names no workflow id. |
| Interrupted.TwoChildrenReachable | pkg/tasks/engine_commands.go:73-105 | A start, a crash inside a start-child without a workflow id, and the command again: two children run and the parent records the second. |
| RunTable.Serve | pkg/tasks/engine.go:216-633 | After any requests: at most one open run per id, which describe returns; one successor for a continued run, existing and shared with no other; at most one child per sequence number. |
| RunTable.Engine.DescribeWorkflow | pkg/tasks/engine.go:339-385 | Without a run id: a run exactly when there is one under the id, an open one if any, else one not continued if any, of those the latest start and of those the largest run id. With a run id: that run. |
| RunTable.Engine.AppendHistory | pkg/tasks/engine.go:640-663 | The event is added to the run's history, or nothing when the run is missing. |
| RunTable.Engine.TerminalTransition | pkg/tasks/engine.go:391-432 | The run closed with its event, or nothing for a closed or missing run. |
| RunTable.Engine.ResolveWorkflowIdConflict | pkg/tasks/engine.go:303-329 | Reuse, terminate, reject or go on, as RunLaws.ResolveLaw and RunLaws.ResolveFree say. |
| RunTable.Engine.StartWorkflowFull | pkg/tasks/engine.go:216-292 | Result and store are those of the specified start, which RunLaws.RepeatLaw, RunLaws.ConflictLaw and RunLaws.FreeLaw write out. |
| RunTable.Engine.SignalWithStartFull | pkg/tasks/engine.go:617-633 | The open run is signalled, or one is started and signalled. |
| RunTable.Engine.CancelWorkflow | pkg/tasks/engine.go:470-520 | A running run is asked to cancel once, then canceling, or canceled when nobody is subscribed. |
| RunTable.Engine.ApplyContinueAsNew | pkg/tasks/engine_commands.go:31-62 | The run closed naming its successor and the successor started; nothing for a closed run or undecodable input. |
| RunTable.Engine.ChildStartRecorded | pkg/tasks/engine_commands.go:109-123 | True exactly when the parent's history has a child with that sequence number. |
| RunTable.Engine.ApplyStartChild | pkg/tasks/engine_commands.go:73-105 | A child is started or attached once per parent run and sequence number, and recorded. |
| Visibility.ParserIsGrammar | pkg/tasks/engine.go:859-872 | The parser accepts exactly the documented grammar, with OR loosest, then AND, then NOT, and returns the derivation's tree. |
| Visibility.OrComplete | pkg/tasks/engine.go:1052-1128 | Every derivation not followed by AND is read whole by the loops before what follows it. |
| Visibility.OrSound | pkg/tasks/engine.go:1052-1128 | Whatever is accepted is the yield of a derivation with that tree. |
| Visibility.TokensRoundTrip | pkg/tasks/engine.go:1032-1223 | Parsing the parenthesised tokens of a tree returns the tree. |
| Lexer.VTokenize | pkg/tasks/engine.go:926-1000 | The index-driven tokenizer computes the specified tokens or error. |
| Lexer.SpellingRoundTrip | pkg/tasks/engine.go:926-1000 | Tokens written with one blank between them are read back. |
| Lexer.TokensSpellable | pkg/tasks/engine.go:926-1000 | Only tokens that can be written down come out of the tokenizer. |
| Lexer.QueryRoundTrip | pkg/tasks/engine.go:926-1223 | Tokenizing and parsing the printing of a printable tree returns the tree. |
| Lexer.PrintableIsParsed | pkg/tasks/engine.go:926-1223 | The printable trees are exactly the trees of queries. |
| QueryParser.VParser.ParseValueList | pkg/tasks/engine.go:1201-1223 | The loop reads the list the specification reads. |
| QueryParser.VParser.ParseComparison | pkg/tasks/engine.go:1130-1187 | Result and position are those of the specified parse, in every form and error. |
| QueryParser.VParser.ParseAtom | pkg/tasks/engine.go:1111-1128 | Result and position are those of the specified parse. |
| QueryParser.VParser.ParseNot | pkg/tasks/engine.go:1090-1109 | Result and position are those of the specified parse. |
| QueryParser.VParser.ParseAnd | pkg/tasks/engine.go:1071-1088 | The loop ends and builds the left-associated tree the specification builds. |
| QueryParser.VParser.ParseOr | pkg/tasks/engine.go:1052-1069 | The loop ends and builds the left-associated tree the specification builds. |
| QueryParser.ParseVisibilityQuery | pkg/tasks/engine.go:1032-1050 | An empty query matches everything; any other is a whole expression or malformed. |
| Lexemes.TokensAreLexemes | pkg/tasks/engine.go:926-1000 | A text has these tokens exactly when it is made of blanks, tabs, newlines and lexemes of them, each going on as far as it can: keywords in any case, words, numbers with an optional sign, strings in either quotes, nine symbols; anything else is an error. |
| Lexemes.QueryLaw | pkg/tasks/engine.go:1032-1050 | A query matches everything exactly when it is all white space, and has a tree exactly when what stands between its outer white space has tokens from which the grammar derives that tree. |
| ZapWire.BuiltReads | sdk/typescript/src/zap/wire.ts:123-280 | A message built from any separate fields of an object reads every one of them back. |
| ZapWire.BuiltParses | sdk/typescript/src/zap/wire.ts:198-232 | A built message parses whole with its flags and root. |
| ZapWire.UnsetWordIsZero | sdk/typescript/src/zap/wire.ts:98-105 | A word that was never set reads as zero. |
| Envelope.EnvelopeRoundTrip | sdk/typescript/src/zap/envelope.ts:31-72 | Decoding a built envelope gives back body, status, error and the opcode byte. |
| Envelope.FieldObjectReads | sdk/typescript/src/zap/envelope.ts:94-112 | Token and payload of a field object are read back. |
| Envelope.FrameBodyRoundTrip | sdk/typescript/src/zap/envelope.ts:84-91 | A body that does not start as a frame comes back from its envelope under the opcode. |
| Envelope.FrameBodyKeepsFields | sdk/typescript/src/zap/envelope.ts:84-91 | A field object given an opcode keeps token and payload. |
| Envelope.HandshakeRoundTrip | sdk/typescript/src/zap/node.ts:64-83 | The node id comes back exactly when it has at most sixty bytes, and as nothing otherwise. |
| ZapBuilder.Builder.constructor | sdk/typescript/src/zap/wire.ts:41-50 | Whatever the capacity, the buffer starts as the header. |
| ZapBuilder.Builder.Grow | sdk/typescript/src/zap/wire.ts:89-96 | Room for n more bytes, contents kept. |
| ZapBuilder.Builder.EnsureAbs | sdk/typescript/src/zap/wire.ts:99-105 | The contents are zero-filled up to the position asked for. |
| ZapBuilder.Builder.Align | sdk/typescript/src/zap/wire.ts:107-114 | Zeros added, fewer than the alignment, so that the position is a multiple of it. |
| ZapBuilder.Builder.FinishWithFlags | sdk/typescript/src/zap/wire.ts:58-67 | The contents with flags, root and total size in the header. |
| ZapBuilder.ObjectBuilder.SetUint32 | sdk/typescript/src/zap/wire.ts:146-149 | The word written at its offset and nothing else. |
| ZapBuilder.ObjectBuilder.SetBytes | sdk/typescript/src/zap/wire.ts:160-171 | The length written and the contents deferred, or zeros for no bytes. |
| ZapBuilder.ObjectBuilder.FinishAsRoot | sdk/typescript/src/zap/wire.ts:177-195 | Deferred contents appended in order, each offset pointing at its own. |
| ZapBuilder.EncodeEnvelope | sdk/typescript/src/zap/envelope.ts:31-38 | The frame is the specified envelope with no status and no error. |
| ZapBuilder.EncodeResponseEnvelope | sdk/typescript/src/zap/envelope.ts:41-55 | For any initial capacity the frame is the specified envelope. |
| ZapBuilder.EncodeFieldObject | sdk/typescript/src/zap/envelope.ts:94-101 | For any initial capacity the frame is the specified field object. |
| ZapBuilder.EncodeFrameBody | sdk/typescript/src/zap/envelope.ts:84-91 | A framed body gets its flags replaced, any other is wrapped. |
| ZapBuilder.EncodeHandshake | sdk/typescript/src/zap/node.ts:65-74 | The byte-wise loop builds the specified handshake. |
| ZapStream.ChunksDoNotMatter | sdk/typescript/src/zap/node.ts:147-172 | The frames seen, and whether the stream is refused, depend only on the bytes, not on the chunks. |
| ZapStream.StreamRoundTrip | sdk/typescript/src/zap/node.ts:147-172 | Length-prefixed frames received in any chunks are the frames written. |
| ZapStream.CorrelatedRoutes | sdk/typescript/src/zap/node.ts:174-196 | A correlated frame is routed by its flag under its id with the frame intact. |
| ZapStream.BareIff | sdk/typescript/src/zap/node.ts:174-196 | A bare message is routed as a push exactly when its flags are not zero. |
| ZapStream.EnvelopePushIff | sdk/typescript/src/zap/node.ts:174-196 | A pushed envelope is routed as a push exactly when its opcode byte is not zero. |
| ZapStream.ZapNode.OnData | sdk/typescript/src/zap/node.ts:147-172 | One chunk: the first frame of the stream is the handshake, the others are routed in order, the rest is kept, and a length over the limit destroys the socket. |
| ZapStream.ZapNode.OnChunks | sdk/typescript/src/zap/node.ts:147-172 | After any chunks the node holds what the stream of them yields. |
| ZapStream.WriteCorrelated | sdk/typescript/src/zap/node.ts:297-311 | The bytes written are length, id, flag and frame; they arrive as one frame with nothing left over, a call with flag 1 and an answer with flag 2 under the id with the frame intact; one over ten mebibytes is refused whole. |
| ZapStream.RouteLaw | sdk/typescript/src/zap/node.ts:174-196 | Any bytes are an answer with 2 in the second word, a call with 1, under the number in the first, and a push otherwise. |
| ZapStream.HeadLaw | sdk/typescript/src/zap/node.ts:147-160 | The front of any buffer is refused with a length over ten mebibytes, and is a frame exactly when that many bytes follow its four. |
| ZapFormat.BuiltBytes | sdk/typescript/src/zap/wire.ts:10-22 | Every byte of a built message: the sixteen of the header, each byte and little-endian word in its place, for a byte string the distance to its contents and their length, the contents in the order they were set, zeros elsewhere. |
| ZapFormat.EnvelopeBytes | sdk/typescript/src/zap/envelope.ts:31-55 | An envelope byte for byte: opcode in the eighth byte, body at 0, status at 8, error at 12 of a 24-byte object, body and error behind it. |
| ZapFormat.FieldObjectBytes | sdk/typescript/src/zap/envelope.ts:94-101 | A field object byte for byte: token at 0 and payload at 8 of a 32-byte object, both behind it. |
| ZapFormat.HandshakeBytes | sdk/typescript/src/zap/node.ts:65-74 | A handshake byte for byte: up to sixty bytes of the id, zeros, and the length of the whole id at 60. |
| ZapFormat.ParseIff | sdk/typescript/src/zap/wire.ts:202-213 | Bytes parse exactly with sixteen or more of them, the magic, version one or two and a size no larger than they are, and then to that many of them. |
| ZapFormat.WordLaw | sdk/typescript/src/zap/wire.ts:255-258 | A word of any message is four bytes, little endian, or zero past the end. |
| ZapFormat.BytesLaw | sdk/typescript/src/zap/wire.ts:264-275 | A byte string of any message is what its two words point at, counted from the field in either direction, and empty when they are missing, the distance is zero or the target is not inside. |
| ZapFormat.HeaderLaw | sdk/typescript/src/zap/wire.ts:219-232 | The opcode of any message is its eighth byte and its root the number at the ninth. |
| ZapFormat.DecodersRead | sdk/typescript/src/zap/envelope.ts:64-112 | What the three decoders read out of any message, by offset from its root. |
| Leases.ClaimsAreBounded | pkg/tasks/activities.go:126-219 | An activity with a positive limit is handed out at most that often; between two hand-overs it was reaped, after the lease then in force had passed. |
| Leases.LeasesLast | pkg/tasks/activities.go:98-219 | Over any run an activity is handed out again only after a reap that came more than a term, less a second, after the last hand-out or heartbeat before it, the term being its heartbeat timeout, else the lease asked for, else sixty seconds. |
| Leases.OldestForemost | pkg/tasks/activities.go:139-156 | The activity claimed waits on the queue, and none that waits there started earlier, or at the same time under an id that comes first in byte order. |
| Leases.TerminalIsFinal | pkg/tasks/activities.go:367-421 | A terminal activity never changes again unless one is started under its key. |
| Leases.TerminalChangesIff | pkg/tasks/activities.go:33-94 | A step changes a terminal activity exactly when it is a start under the same key. |
| Leases.ParkedStays | pkg/tasks/activities.go:296-326 | An activity started without a lease is never reaped nor handed out by any run that does not start one under its key. |
| Leases.ParkedIffBeatFirst | pkg/tasks/activities.go:182-326 | In every reachable state an open activity is started without a lease exactly when its first heartbeat since it was last scheduled came before a hand-out. |
| Leases.BeatParksIff | pkg/tasks/activities.go:296-326 | A heartbeat leaves an open activity started without a lease exactly when it was scheduled or so already. |
| Leases.HeartbeatFirstParks | pkg/tasks/activities.go:296-326 | A start and one heartbeat reach such a state. |
| ClaimQueue.SortByAge | pkg/tasks/activities.go:139-144 | The rows in order of start time and id, each once. |
| ClaimQueue.Queue.StartActivity | pkg/tasks/activities.go:33-94 | Refused exactly without namespace, type or id; a repeated request returns the activity it made and changes nothing; any other puts an activity under its key, scheduled at attempt one without a lease, on its queue or the default one, which a repeated request would then return. |
| ClaimQueue.Queue.ReapExpiredLeases | pkg/tasks/activities.go:182-219 | Every started activity past its lease fails at its limit, or goes back to scheduled at the next attempt without claimant and lease, with its event; every other stays. |
| ClaimQueue.Queue.ClaimNextActivity | pkg/tasks/activities.go:104-174 | After reaping, an activity of the queue, or of any with none named, with the earliest start and then the smallest id is started under the claimant; its lease ends within the second up to the clock plus the heartbeat timeout, else the lease asked for, else sixty seconds; nothing exactly when none waits. |
| ClaimQueue.Queue.HeartbeatActivity | pkg/tasks/activities.go:296-326 | A live activity is started and its lease, if it has one, ends within the second up to the clock plus its heartbeat timeout or sixty seconds; a terminal or missing one is refused. |
| ClaimQueue.Queue.ActivityTerminal | pkg/tasks/activities.go:383-421 | An open activity is closed with its event; a terminal or missing one is refused. |
| Channel.ChannelIsFifo | pkg/sdk/workflow/channel.go:228-403 | After any operations: received, buffered and parked values are the values sent, in order; senders return and receivers are answered in order; receivers wait only with nothing to take; wakers wait only while the channel is unreadable. |
| Channel.SendLaw | pkg/sdk/workflow/channel.go:228-289 | On a closed channel a send changes nothing; on an open one it is recorded, and returns at once exactly when a receiver waits, the first of whom gets the value, or the buffer has room. |
| Channel.ReceiveLaw | pkg/sdk/workflow/channel.go:292-357 | A receive is answered with the first value sent and not yet received, with the end when the channel is closed and nothing is buffered, and not yet otherwise. |
| Channel.CloseLaw | pkg/sdk/workflow/channel.go:386-403 | Closing answers every waiting receiver with the end, in order, and leaves what was sent where it is; closing again changes nothing. |
| Channel.WakersLaw | pkg/sdk/workflow/channel.go:173-201 | Wakers fire only when the channel is readable. |
| Channel.PromptIffReadable | pkg/sdk/workflow/channel.go:407-417 | A receive is answered at once exactly when the channel reports a value. |
| Channel.ReceivesAgreeIff | pkg/sdk/workflow/channel.go:292-383 | The two receives take the same value exactly unless the channel was closed over parked senders with nothing buffered. |
| Channel.ReceivesDiffer | pkg/sdk/workflow/channel.go:292-403 | A send and a close on an unbuffered channel reach a state where the receives differ. |
| Channel.ClosedKeepsParked | pkg/sdk/workflow/channel.go:292-403 | A sender parked on an unbuffered channel when it is closed is passed over by every later blocking receive. |
| WorkflowChannel.ChanImpl.Send | pkg/sdk/workflow/channel.go:228-289 | Hand-off, buffer or park as specified; a panic and no change when closed. |
| WorkflowChannel.ChanImpl.Receive | pkg/sdk/workflow/channel.go:292-357 | The answer in the specified order of preference, or parked. |
| WorkflowChannel.ChanImpl.ReceiveAsync | pkg/sdk/workflow/channel.go:360-383 | A value taken as specified, or no change. |
| WorkflowChannel.ChanImpl.Close | pkg/sdk/workflow/channel.go:386-403 | Every parked receiver answered with the end and every waker fired. |
| WorkflowChannel.ChanImpl.RegisterReadyWaker | pkg/sdk/workflow/channel.go:173-189 | The waker fires at once exactly when the channel is readable, and is kept otherwise. |
| WorkflowChannel.ChanImpl.SignalWakers | pkg/sdk/workflow/channel.go:193-201 | Every waker fired once, in order, and none left. |
| WorkflowChannel.ChanImpl.HasValue | pkg/sdk/workflow/channel.go:407-417 | Whether the channel is readable. |

## Left out

- HTTP, MCP, event streams, the embedded UI and the command-line daemon: request plumbing.
- Authentication, encryption and the contents of HMAC tokens: tokens are new opaque values.
- The consensus replicator, shard migration, eviction and sealing, and SQLite itself: a shard is a sorted table.
- JSON and reflection-based argument decoding: payloads are opaque values.
- Signals, conditions, selectors, timers, side effects and versions inside a replayed workflow: what they answer depends on how much history has arrived.
- The Go worker's child-workflow call, which is a direct request: child calls are those of the TypeScript worker.
- The TypeScript worker's rejection of an activity call without a type before it takes a sequence number: the model has the Go order.
- Reset, whose forked runs copy events but not activity records.
- Cron, schedules, batches, deployments, nexus, identities and namespace metadata.
- Rendezvous routing and principal strings.
- The bounded query table of the dispatcher and queries themselves.
- Evaluation of a query tree on a row: lexicographic comparisons field by field.
- Error texts and token positions in error messages.
- IEEE rounding in the backoff: reals are used.
- Cancellation of a parked send or receive, and nil contexts, on channels.
- Interleaving of cancel or terminate, which take no run lock, with another operation's writes.
- Case folding of non-ASCII letters in conflict policies, and text that is not valid UTF-8 in queries.
- Concurrent heartbeats or completions inside a claim or a reap.
- Retention purging of rows that name successors: the run table only grows.
- Engine.RunEngine.ApplyStartChild: does not model input that does not decode, nor the child's own start, because the child is another run; RunTable.Engine.ApplyStartChild has both.
- Events of an earlier activity that a start under the same id and run id replaces: they stay in the store beyond the new row's length, and the model's history begins with the new row.
- Namespace deletion and invalid namespace names.
