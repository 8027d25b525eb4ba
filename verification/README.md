# Verification of the relay and its live-run tooling

The project models the webhook relay, the receiver used to check it, and the tools that run it on a real account and
judge the evidence, and proves what they are relied on for.

**The relay.** Ingest reserves an event row, locks it, publishes to the log and marks the row; a consumer fetches a
record, fans it out to its tenant's subscribers with a retry budget each, writes every attempt to history, dead-letters
what failed, and only then commits the offset. `worker.dfy`, `consumer.dfy` and `store.dfy` hold the imperative code next
to an automaton each: a method, whatever its environment answers, is proved to be a run of its automaton. `relay.dfy`
interleaves any number of these automata over one set of tables, one partitioned log and one dead-letter topic, with
crashes between any two steps; `relay_invariant.dfy` and `relay_steps.dfy` carry the invariant, `relay_theorems.dfy` states
what holds in every reachable state, and `relay_examples.dfy` shows runs that happen and one that must not.

The environment of that machine: a publish that returns nil appends once and a failed one may have, which assumes that the
writer's own retries inside one call, left at the library's default
(`services/relay/cmd/relay/main.go:334-351`), do not append a record a second time before it answers nil; a commit that fails
may have taken effect; committed offsets are per partition and a new owner starts from them; the database keeps at most one
claimed row per tenant and key (the partial unique index in `services/relay/internal/bootstrap/schema.sql`, lines 45 to 47) and
nobody deletes rows; a sent COMMIT may still apply after its client gave up; the jsonb value of a text depends on the text
alone; other producers may append anything; a replay may move a committed offset back.

**The controller.** `processes.dfy` is the executor that owns at most one process group, `controller.dfy` the run from apply
to the verdict, `verdict.dfy` the persisted state and the two Python checks of it. A group is the set of its members, only
live members fork, group ids are not reused, and ESRCH means empty.

**Around them.** `schedule.dfy` is the retry arithmetic with its int64 wrap; `text.dfy`, `json.dfy`, `json_lemmas.dfy` and
`event.dfy` are UTF-8 (RFC 3629), JSON (RFC 8259) and the byte-preserving encoders, and `json_grammar.dfy` shows that the
reader accepts exactly the grammar of RFC 8259; `dead_letter.dfy` the envelope of an
undecodable record; `base64.dfy`, `decimal.dfy` and `signing.dfy` the webhook signature (base64 by section 4 of RFC 4648, HMAC
a parameter); `sink.dfy` the receiver's ring buffer, counters and latches; `shutdown.dfy` the shutdown plan; `scanner.dfy`,
`representations.dfy` and `secret_scan.dfy` the secret scanner, the seven texts of a secret it looks for (URL-safe base64 by
section 5 of RFC 4648) and the receipt of their fingerprints.

What a method is answered by the network, the disk, a database, a context or a command it runs is kept in a ghost log by the
object that answers, and contracts state results from those logs.

Four promises turned out false of the code. Each has a concrete input and the exact condition:

- The stall-budget check accepts schedules whose sums wrap (`Schedule.OverflowIsAccepted`); `Schedule.GuaranteeIff`.
- A last attempt can be written as `retrying` (`Worker.LastAttemptCanReadRetrying`); `Worker.HistoryPatternIff`, by the
  last answers. In particular the pattern holds for every delivery that returns no error (`Worker.HistoryPattern`).
- `EncodeRecord` does not preserve every valid JSON text: whitespace around it is lost, invalid UTF-8 in the strings is
  replaced, and data nested 10000 deep cannot be decoded (`Event.DeepestDataIsLost`; over HTTP the request around the data already
  nests one deeper, so such data does not reach it); `Event.CrossesUnchangedIff`.
- A final write that fails after its rename exits 1 over a file the proof accepts (`Verdict.LateFailureDisagrees`);
  `Verdict.ExitZeroIff`.

Two comments do not match the code. A delivery is said to return an error only when the record context
ends (`services/relay/internal/delivery/deliver.go:111-113`), while a configuration error and a failed history write return
one too: `Worker.ErrorsWithoutExpiry`, `Worker.ErrorIff`. The latch counter is said to show the requests currently parked
(`services/sink/main.go:181-182`), while it counts a request until its handler returns: `Latch.ReleasedIsStillHeld`.

## Model

| member | source | states |
|---|---|---|
| `RelayTheorems.NoSilentLoss` | services/relay/internal/delivery/consumer.go:261-299 | In every state any run can reach, an offset below its partition's committed offset was parked as undecodable with a poison dead letter, or some fan-out of it left every subscriber a 2xx in a durable `delivered` row or a dead letter naming it; an empty fan-out is a tenant without subscribers |
| `RelayTheorems.BegunInOrder` | services/relay/internal/delivery/consumer.go:181-216 | When any consumer has begun an offset, every earlier offset of the partition has settled, through crashes, rewinds and two owners at once |
| `RelayTheorems.TenantInOrder` | services/relay/internal/event/event.go:184-186 | Records of one tenant share a partition, and while one is being delivered every earlier one has settled |
| `RelayTheorems.SameKeySameEvent` | services/relay/internal/history/store.go:82-150 | All accepted requests for one tenant and non-blank key answer 202 with the same event, whose type and JSON value are the caller's |
| `RelayTheorems.AcceptedIsLogged` | services/relay/internal/history/store.go:130-149 | An acceptance, deduplicated or not, implies the log already holds exactly that record |
| `RelayTheorems.OnePublisher` | services/relay/internal/history/store.go:137-149 | At most one acceptance of an event is a publishing one |
| `RelayTheorems.ExtraRecordsFailed` | services/relay/internal/history/store.go:137-149 | Two log records of one event whose requests both succeeded are one record of one request |
| `RelayTheorems.ExactlyOneRecord` | services/relay/internal/history/store.go:82-150 | When every request was accepted, afresh or deduplicated, or told its key is taken by another body, the log holds exactly one record of each answered event |
| `RelayTheorems.RowBeforeLog` | services/relay/internal/history/store.go:97-149 | Every record acceptance published repeats a committed event row, on its tenant's partition |
| `RelayTheorems.MissingOnlyForForeign` | services/relay/internal/history/store.go:227-235 | A missing event row can be reported only for a record that did not come through acceptance |
| `RelayTheorems.HistoryHasNoGaps` | services/relay/internal/history/store.go:213-259 | Attempt numbers of each event and subscription are 1 to n in every reachable state |
| `RelayTheorems.RunsKeepInv` | services/relay/internal/delivery/consumer.go:159-217 | Every run from the empty system keeps the invariant the theorems rest on |
| `RelayTheorems.RunsGrow` | services/relay/internal/delivery/consumer.go:159-217 | The rest of a run takes away no row, log record, dead letter, attempt or publication |
| `RelaySteps.StepKeeps` | services/relay/internal/delivery/consumer.go:302-472 | Each single step of any request, consumer, transaction or environment keeps the invariant |
| `RelaySteps.PublishKeeps` | services/relay/internal/history/store.go:137-139 | A publish, failed or not, appends at most the row's own record, for a request that had appended none |
| `RelaySteps.CommitSucceeds` | services/relay/internal/history/store.go:140-149 | Committing the mark makes its request the event's one publisher |
| `RelaySteps.ResolveKeeps` | services/relay/internal/history/store.go:204-208 | The invariant survives a transaction that takes effect or is dropped after its client gave up |
| `RelaySteps.RecordEndKeeps` | services/relay/internal/history/store.go:252-258 | A history write that succeeds, fails or fails after taking effect keeps the invariant |
| `RelaySteps.JoinWorkersKeeps` | services/relay/internal/delivery/consumer.go:364-398 | Only a fan-out without retry errors goes on, with exactly the undelivered subscribers to dead-letter |
| `RelaySteps.WriteDeadLetterKeeps` | services/relay/internal/delivery/consumer.go:399-470 | A dead letter, lost or stored, keeps the invariant |
| `RelaySteps.CommitOffsetKeeps` | services/relay/internal/delivery/consumer.go:281-284 | A commit, even one reported as failed, puts only settled records below the offset |
| `RelaySteps.FetchKeeps` | services/relay/internal/delivery/consumer.go:181-195 | A fetch happens only when everything below the position has settled |
| `RelaySteps.AssignKeeps` | services/relay/internal/delivery/consumer.go:181-195 | A new owner, beside an old one, starts at the committed offset |
| `RelaySteps.RewindKeeps` | services/relay/internal/replay/replay.go:86-138 | A replay that moves committed offsets back keeps the invariant |
| `RelayExamples.AcceptedToCommitted` | services/relay/internal/delivery/consumer.go:261-299 | The whole way is a run: accepted, published, delivered, written to history and committed |
| `RelayExamples.RetryCanDuplicate` | services/relay/internal/history/store.go:137-139 | A publish that fails after appending, retried with the same key, leaves two records of which only the second request was accepted |
| `RelayExamples.RepeatIsDeduplicated` | services/relay/internal/history/store.go:130-135 | For every configuration with two slots, a keyed request that was accepted and then repeated with the same tenant, key, type and JSON value can be answered with the first event, deduplicated, with one record on the log |
| `RelayExamples.BadCanBeParked` | services/relay/internal/delivery/consumer.go:305-333 | From every reachable state an undecodable record in hand can be parked, with its poison letter, and committed |
| `RelayExamples.UnwantedCanBeCommitted` | services/relay/internal/delivery/consumer.go:261-299 | From every reachable state a decodable record in hand whose tenant has no subscribers can be committed |
| `RelayExamples.ForwardResetSkips` | services/relay/internal/replay/replay.go:86-105 | A committed offset moved forward would have an accepted, unsettled event below it: why the machine only rewinds |
| `Worker.HistoryPattern` | services/relay/internal/delivery/deliver.go:143-247 | A delivery that returns no error wrote k-1 `retrying` rows and one `delivered` or `exhausted` row agreeing with its result; k is its attempts, at most the maximum, and equal to it when exhausted |
| `Worker.HistoryPatternIff` | services/relay/internal/delivery/deliver.go:182-184 | Whatever a finished delivery returns, its rows are k-1 retries and the row its result names exactly when its last row was written and the last reply was a 2xx, or was the last allowed and the context still stood at the read that decides `exhausted` |
| `Worker.ErrorIff` | services/relay/internal/delivery/deliver.go:111-244 | A step ends the delivery with an error exactly when interrupted writes have no time, the context was seen expired, or the history write did not succeed |
| `Worker.ErrorsWithoutExpiry` | services/relay/internal/delivery/deliver.go:111-113 | Two deliveries that return an error although the context was never seen expired |
| `Worker.OnlyTheLastRowDiffers` | services/relay/internal/delivery/deliver.go:143-244 | However a delivery ends, only its last row can be other than `retrying` |
| `Worker.PatternHolds` | services/relay/internal/delivery/deliver.go:143-244 | What has been written at every point of any run of the loop |
| `Worker.LastAttemptCanReadRetrying` | services/relay/internal/delivery/deliver.go:164-184 | A run whose last attempt is written as `retrying`, because the context expired between two reads |
| `Worker.DeliveredIsDurable` | services/relay/internal/delivery/deliver.go:195-237 | Delivered without error means the reply was a 2xx and its row was committed |
| `Worker.StepDescends` | services/relay/internal/delivery/deliver.go:143-244 | Every event lowers a rank, so every delivery ends |
| `Deliverer.Deliver` | services/relay/internal/delivery/deliver.go:126-248 | Whatever is answered, the loop is a run of the automaton ending in what it returns, within the worst-case time.  Its log is, request by request, the check of the context, the reply, the reads that matter, the numbered row and the wait; which row is written, whether and how long it waits, and the outcome and error returned follow from those answers alone, and without write time or an encodable body nothing is asked at all |
| `Deliverer.Attempt` | services/relay/internal/delivery/deliver.go:158-224 | One request, its classification and its history write are two steps of the automaton; the row written is `delivered` for a 2xx, else `exhausted` for a last attempt under a context that stands, else `interrupted` for a transport error under one that ended, else `retrying` |
| `Deliverer.Send` | services/relay/internal/delivery/deliver.go:158-184 | The same for the request alone: the context is read only behind a transport error, and again only when a last attempt failed |
| `Deliverer.Try` | services/relay/internal/delivery/deliver.go:148-244 | One pass waits the scheduled time and leaves another one due exactly when it was no 2xx, its row was written, the context stands and retries are left; otherwise it ends with the error its answers name |
| `Deliverer.Turn` | services/relay/internal/delivery/deliver.go:148-237 | One turn takes the automaton from waiting to what follows the write, for a retry delay within the schedule |
| `Deliverer.RecordContext.Err` | services/relay/internal/delivery/deliver.go:144-146 | An expired record context never comes back |
| `Deliverer.UsedWithinWorstCase` | services/relay/config/retry.go:387-391 | Failed attempts and their waits, plus one more attempt, stay inside the worst case |
| `Deliverer.FanOutUnderBudget` | services/relay/internal/delivery/consumer.go:353-364 | Under an accepted schedule that fits in int64 the slowest of any number of concurrent deliveries is strictly under the stall budget |
| `Schedule.ParseDelays` | services/relay/config/retry.go:279-299 | Succeeds exactly when every field is a non-negative duration, else names the first that is not |
| `Schedule.Total64` | services/relay/config/retry.go:311-317 | The accumulating loop computes the exact sum, wrapped to int64 once |
| `Schedule.Jittered` | services/relay/config/retry.go:335-341 | The delay itself without jitter; with it, at least half the delay and strictly less than twice that half |
| `Schedule.DelayFor` | services/relay/config/retry.go:321-329 | Some delay exactly for retries 1 to the maximum less one, from half the scheduled one up to it, and strictly below it under jitter |
| `Schedule.WorstCaseWraps` | services/relay/config/retry.go:387-391 | The int64 worst case is the exact one wrapped |
| `Schedule.ValidateIsExact` | services/relay/config/retry.go:364-385 | While the exact worst case fits in int64 the check accepts exactly the schedules strictly under the budget |
| `Schedule.OverflowIsAccepted` | services/relay/config/retry.go:311-317 | Two delays of 2^62 ns parse, wrap, and are accepted under a 30 s budget |
| `Schedule.GuaranteeIff` | services/relay/config/retry.go:364-385 | Exactly when acceptance implies the bound for every budget: the worst case fits, or wraps to the largest int64 |
| `EventDb.ApplyKeeps` | services/relay/internal/history/store.go:213-259 | A transaction taking effect leaves the tables consistent and every other open transaction valid |
| `EventDb.ExtendKeepsGapFree` | services/relay/internal/history/store.go:237-251 | One more row numbered past the maximum keeps every sequence gap-free |
| `EventDb.ReserveKeeps` | services/relay/internal/history/store.go:97-111 | Reserving a row keeps at most one claimed row per tenant and key |
| `EventDb.LockKeeps` | services/relay/internal/history/store.go:161-202 | Taking a row lock leaves the tables consistent and every open transaction valid |
| `EventDb.MarkKeeps` | services/relay/internal/history/store.go:140-145 | Marking an event published keeps the tables consistent |
| `EventDb.StageKeeps` | services/relay/internal/history/store.go:237-251 | A staged attempt row keeps the tables consistent |
| `Acceptance.Normalize` | services/relay/internal/history/store.go:93-95 | A key of white space becomes no key; nothing else changes |
| `Store.Slots` | services/relay/internal/history/store.go:63-75 | At least one acceptance slot, and one pool connection left over when there are two |
| `Store.AcceptanceStore.AcquireSlot` | services/relay/internal/history/store.go:152-159 | A slot is taken exactly when the call succeeds, never beyond capacity |
| `Store.AcceptanceStore.ReleaseSlot` | services/relay/internal/history/store.go:92 | A slot is given back |
| `Store.AcceptanceStore.AcceptEvent` | services/relay/internal/history/store.go:82-150 | The end follows from the logged answers: accepted as deduplicated exactly when the locked row matches, was published and the commit succeeded; accepted afresh exactly when publish, mark and commit succeeded on an unpublished match; a conflict exactly for a row under the key that does not match; a failed publish exactly for a refused one; and unavailable for everything else.  It is a run of the automaton, and the slot is returned |
| `Store.Tells` | services/relay/internal/ingest/server.go:236-272 | The answers alone tell which of 202, 409 and 503 the caller gets |
| `Store.AcceptanceStore.AcceptWithSlot` | services/relay/internal/history/store.go:97-117 | A failed reservation, or a taken generated id, refuses before any lock |
| `Store.AcceptanceStore.AcceptLocked` | services/relay/internal/history/store.go:119-135 | What the locked row says decides between conflict, deduplication and publication |
| `Store.AcceptanceStore.PublishAndMark` | services/relay/internal/history/store.go:137-149 | The stored event is published before anything is marked; a failed publish marks nothing |
| `Store.AcceptanceStore.MarkAndCommit` | services/relay/internal/history/store.go:140-149 | The chosen event is marked and committed, in that order, before it is accepted |
| `Store.AttemptStore.RecordAttempt` | services/relay/internal/history/store.go:213-259 | Against any interference, success means this call committed exactly one row, now the last, numbered by how many there are; any other answer means it committed none, and missing means no event row existed.  Which it is follows from what lock, insert and commit replied |
| `Store.AttemptStore.InsertAndCommit` | services/relay/internal/history/store.go:237-258 | Under the row lock, the staged row commits with the next number or not at all |
| `Store.AppliedRow` | services/relay/internal/history/store.go:237-257 | A committed attempt row is the last one and continues its sequence |
| `ConsumerLoop.PlanIsExact` | services/relay/internal/delivery/consumer.go:380-470 | With every delivery ended and no retry error, a subscriber is dead-lettered exactly when it was not delivered without error |
| `Consumer.Consumer.Consume` | services/relay/internal/delivery/consumer.go:159-217 | The loop is a run of the automaton that ends stopped and not ready; it commits exactly the records it counts as handled, in fetch order, and fetches at most one more, which a refused letter or commit, a failed lookup or a delivery asking for redelivery left unfinished; an error is returned for a failed fetch or record only, and otherwise the context has ended |
| `Consumer.Consumer.Take` | services/relay/internal/delivery/consumer.go:195-215 | A fetched record is committed and counted, or an answer that leaves it unfinished ends the loop; a cancelled consumer finishes it first |
| `Consumer.Consumer.ProcessRecord` | services/relay/internal/delivery/consumer.go:261-299 | A commit is asked for exactly behind an Ok; granted, the record is counted, and refused, the loop stops with the offset left alone |
| `Consumer.Consumer.Handle` | services/relay/internal/delivery/consumer.go:302-472 | An undecodable record asks for its poison letter and nothing else, and is Ok exactly when that was written; any other is looked up once and fails exactly when the lookup failed, a delivery asks for redelivery or a letter of the plan was refused, the letters being asked for in the plan's order; delivered grows by exactly the subscribers a 2xx came back from |
| `Consumer.Consumer.Park` | services/relay/internal/delivery/consumer.go:305-333 | The poison letter is asked for once, and its answer is the verdict |
| `Consumer.Consumer.Deliver` | services/relay/internal/delivery/consumer.go:353-364 | Any schedule of the concurrent deliveries is a run of the automaton and ends |
| `Consumer.Consumer.Finish` | services/relay/internal/delivery/consumer.go:366-471 | A retry error stops the record with no letter written and nobody counted; otherwise the whole plan is written, missing history first, or a front of it and the record stops |
| `Consumer.Consumer.SortErrors` | services/relay/internal/delivery/consumer.go:380-391 | Flags exactly the missing-history subscribers and whether any error asks for redelivery |
| `Consumer.Consumer.DeadLetterMissing` | services/relay/internal/delivery/consumer.go:399-432 | Writes exactly the missing-history letters and counts those subscribers as delivered if a 2xx came back |
| `Consumer.Consumer.DeadLetterFailed` | services/relay/internal/delivery/consumer.go:436-470 | Writes exactly the exhausted letters and counts the other kept subscribers as delivered |
| `Consumer.Consumer.WriteDeadLetter` | services/relay/internal/delivery/consumer.go:474-486 | The next letter of the plan is written or the record stops |
| `Consumer.Consumer.MarkReady` | services/relay/internal/delivery/consumer.go:136-144 | Readiness cannot come back once shutdown has begun |
| `Consumer.Consumer.StartReadiness` | services/relay/internal/delivery/consumer.go:219-225 | A run starts not ready and not stopping |
| `Consumer.Consumer.StopReadiness` | services/relay/internal/delivery/consumer.go:227-232 | A stop withdraws readiness |
| `Processes.Executor.Start` | tools/m4-live-run/main.go:196-221 | A command starts only when none owns the executor, and then no other group is alive; a queued signal, and no other, is sent to its group |
| `Processes.Executor.Finish` | tools/m4-live-run/main.go:222-246 | The executor is given back only once the group is empty |
| `Processes.Executor.WaitForGroupExit` | tools/m4-live-run/main.go:259-283 | True exactly when the last look found the group gone; false only for a look that failed or a group that outlived SIGKILL by five seconds after thirty; either answer comes in bounded time |
| `Processes.Executor.Run` | tools/m4-live-run/main.go:174-247 | A confirmed end means nothing is alive; an owned executor starts nothing; without one the command is started unless it cannot be, and its status is how the wait for it ended; every end is logged |
| `Processes.Executor.Collect` | tools/m4-live-run/main.go:174-247 | The result of a command started earlier by another goroutine is one that its own end allows |
| `Processes.Executor.RequestSignal` | tools/m4-live-run/main.go:285-297 | Queued without a child, otherwise sent to the child's group and not queued |
| `Processes.Executor.ClearPending` | tools/m4-live-run/main.go:299-303 | Drops a queued signal |
| `Processes.StartedAtMostOnce` | tools/m4-live-run/main.go:174-247 | Running a command in its place keeps the order and starts it once at most |
| `Processes.StartedOnce` | tools/m4-live-run/main.go:1254-1334 | A command started in its place keeps the order and counts once |
| `Processes.EndedOnce` | tools/m4-live-run/main.go:1254-1334 | One more end is the last answer of its command and of no other |
| `Verdict.ConcludedIff` | scripts/m4-evidence.py:1083-1107 | The proof accepts a concluded state exactly when cleanup and evidence passed, apply exited 0 and nothing was late |
| `Verdict.ExitZeroIff` | tools/m4-live-run/main.go:1209-1247 | Exit 0 exactly when the last write succeeded and the proof accepts; an accepted file with another exit is exactly a late write failure |
| `Verdict.LateFailureDisagrees` | tools/m4-live-run/main.go:521-548 | The disagreement is real: rename succeeds, chmod fails, exit 1, file accepted |
| `Controller.Controller.Run` | tools/m4-live-run/main.go:1254-1334 | Phases on disk only move forward; without the first write nothing runs; a run that launched apply ends complete or cleanup_failed; signals are a prefix of SIGINT, SIGTERM, SIGKILL; commands start in the order apply, destroy, state, inventory, cost, apply, state check and cost at most once and the inventory at most three times; the account is verified exactly when the last lookup matched; destroy runs 1 to 3 times exactly when apply's end and the account were confirmed; every exit in a conclusion that is not blocked is the last one its command answered, and the verdict follows from those answers; an unconfirmed apply, or a cleanup whose command may still be running, ends blocked with exit 1; exit 0 exactly for an accepted final file |
| `Controller.Controller.Proceed` | tools/m4-live-run/main.go:1254-1334 | The same once the first write succeeded; apply is given up on only when it came back unconfirmed, or not at all although all three signals were sent |
| `Controller.Controller.AfterApply` | tools/m4-live-run/main.go:1318-1334 | From the end of apply on: the recorded exit is what apply answered last |
| `Controller.ConclusionIsJudged` | tools/m4-live-run/main.go:1209-1247 | Concluding from findings that are what was answered gives the verdict those answers deserve: complete exactly when the state check and the inventory last exited 0, passed exactly when everything else was in order too |
| `Controller.FoundStays` | tools/m4-live-run/main.go:1167-1205 | One more command, and the heartbeats beside it, leave the findings what was answered |
| `Controller.Controller.RunApply` | tools/m4-live-run/main.go:922-961 | A confirmed apply leaves no live group; its signals are a prefix of SIGINT, SIGTERM, SIGKILL; if any was sent the reason given for it is true, and if none came back all three were sent |
| `Controller.Controller.StopApply` | tools/m4-live-run/main.go:874-920 | Climbs the ladder on time or on a signal and returns within 30+10+5 s |
| `Controller.Controller.StopTurn` | tools/m4-live-run/main.go:874-920 | One turn climbs the ladder, lets time pass, or ends with what apply answered; without an answer it ends only behind SIGKILL |
| `Controller.Controller.WaitForStop` | tools/m4-live-run/main.go:963-998 | The live phase ends for a true reason, the deadline, a signal or a request for this run, or with an error that is a failed write or an unusable request; never past a conclusion |
| `Controller.Controller.HoldLive` | tools/m4-live-run/main.go:1318-1332 | After a successful apply the phase is live and nothing else in the state changes; after any other the state stays as it is |
| `Controller.Controller.UpdateState` | tools/m4-live-run/main.go:663-667 | A write reaches the disk, fails before it, or fails after it; phases never go back |
| `Controller.Controller.RunWithHeartbeat` | tools/m4-live-run/main.go:1007-1032 | A command runs, in its place in the order, with heartbeats beside it that cannot conclude the run |
| `Controller.Controller.VerifyAccount` | tools/m4-live-run/main.go:815-850 | Confirmed exactly when the last of at most three lookups answered with the staged account and the others failed |
| `Controller.Controller.DestroyLoop` | tools/m4-live-run/main.go:1115-1141 | One to three destroys, three when none exited 0; the status is what the last one answered |
| `Controller.Controller.DestroyOnce` | tools/m4-live-run/main.go:1115-1130 | One destroy and no other command, with a line of the transcript before and behind it |
| `Controller.Controller.InventoryLoop` | tools/m4-live-run/main.go:1167-1188 | At most three inventory checks are started, none over an unresolved command, three when none exited 0; the status is what the last one answered |
| `Controller.Controller.BlockCleanupOnProcess` | tools/m4-live-run/main.go:1034-1051 | An unconfirmed exit ends the run in cleanup_failed with exit 1 |
| `Controller.Controller.RefuseIdentity` | tools/m4-live-run/main.go:1091-1113 | An unverified account ends the run blocked, with exit 1 |
| `Controller.Controller.Cleanup` | tools/m4-live-run/main.go:1053-1113 | Destroy runs one to three times when the account was verified; otherwise never, and the cleanup ends blocked for that reason |
| `Controller.Controller.BeginDestroying` | tools/m4-live-run/main.go:1059-1072 | The destroy start and a reason are recorded before anything is destroyed |
| `Controller.Controller.DestroyAndConclude` | tools/m4-live-run/main.go:1115-1130 | From the destroy on the cleanup ends blocked with exit 1 exactly when a command's end stayed unconfirmed, and concludes otherwise |
| `Controller.Controller.BeginVerifying` | tools/m4-live-run/main.go:1161-1165 | Destroy, log, state and transcript results are in the state before the inventory |
| `Controller.Controller.InventoryAndConclude` | tools/m4-live-run/main.go:1167-1188 | From the inventory on the cleanup ends blocked with exit 1 exactly when a command's end stayed unconfirmed, and concludes otherwise |
| `Controller.Controller.CheckAndConclude` | tools/m4-live-run/main.go:1142-1165 | From the state check on the cleanup ends blocked with exit 1 exactly when a command's end stayed unconfirmed, and otherwise with every exit it recorded the one that command answered |
| `Controller.Controller.GatherFindings` | tools/m4-live-run/main.go:1142-1160 | The findings are what destroy, the log deletion, the state check and the transcript answered |
| `Controller.Controller.CheckState` | tools/m4-live-run/main.go:1144-1149 | The state check is run and its status is the one answered |
| `Controller.Controller.CostAndConclude` | tools/m4-live-run/main.go:1189-1210 | A cost query that may still be running blocks the cleanup; no cost turns a failed cleanup into a passed one |
| `Controller.Controller.ObserveCost` | tools/m4-live-run/main.go:1189-1205 | The cost is what the query answered if its file could be opened and closed, and otherwise 1 |
| `Controller.Controller.Settle` | tools/m4-live-run/main.go:1209-1247 | The conclusion is judged by what was answered, and the exit code is 0 exactly when the file holds an accepted state |
| `Controller.ConcludedWritable` | scripts/m4-evidence.py:1589-1656 | Every concluded state passes the failure summary, which republishes its own cleanup verdict |
| `Scanner.ScanSecretBytes` | scripts/m4-evidence.py:771-839 | A clean answer means no window of the content or of anything carried in it, at any depth, matches a fingerprint; a match is real and named; each refusal means what it says of something reachable: a repeated key, a carrier that is no base64, a string without UTF-8, a value four carries down that holds more, more than 32 MiB of distinct values, a file over 8 MiB; and without a match or any of these the answer is clean.  It terminates |
| `Scanner.FindMatch` | scripts/m4-evidence.py:788-794 | Finds a match exactly when some window has a known fingerprint |
| `Scanner.QueueLines` | scripts/m4-evidence.py:797-804 | Every line that parses queues what it carries and nothing else, one that does not is skipped, and a problem is one of the value's own |
| `Scanner.QueueCarried` | scripts/m4-evidence.py:805-839 | The walk over a decoded text queues what every node carries |
| `Scanner.QueueNode` | scripts/m4-evidence.py:808-835 | One node's strings and record fields are queued |
| `Scanner.QueueRecord` | scripts/m4-evidence.py:814-835 | The base64 fields of a Kafka record are queued decoded |
| `Scanner.ClosedCovers` | scripts/m4-evidence.py:780-784 | A set closed under carrying covers everything reachable |
| `Event.EncodeRecord` | services/relay/internal/event/event.go:68-110 | The appended bytes are one JSON object of the record's members, spelled with these names in this order, or the error of invalid data or an unwritable time |
| `Event.RecordIsText` | services/relay/internal/event/event.go:89-109 | The object of the members is that spelling |
| `Event.EncodePayload` | services/relay/internal/event/event.go:114-129 | The same for a subscriber's body |
| `Event.RecordRoundTrip` | services/relay/internal/event/event.go:68-110 | A consumer decodes an encoded record exactly when its data nests below 10000, and then to valid UTF-8 fields and the data without surrounding whitespace |
| `Event.CrossesUnchangedIff` | services/relay/internal/event/event.go:64-67 | A record decodes to exactly its own fields if and only if its strings are valid UTF-8 and its data has no whitespace around it and nests below 10000 |
| `Event.BodyCarriesData` | services/relay/internal/event/event.go:112-129 | For anything a consumer decodes, the body can be encoded exactly when the record had data, and then parses back to the decoded type and the very bytes of the data |
| `Event.FieldIsBare` | services/relay/internal/event/event.go:43 | The raw data of a decoded object is one JSON value without whitespace around it, one bracket short of the limit |
| `JsonLemmas.ValueAlone` | services/relay/internal/event/event.go:69-71 | A JSON value cut out of a longer text reads as itself |
| `JsonGrammar.DocumentIff` | services/relay/internal/event/event.go:69-71 | A text is accepted with a nesting exactly when it spells, with white space around it, a tree of the RFC 8259 grammar nested so deep |
| `JsonGrammar.ValidIff` | services/relay/internal/event/event.go:69-71 | What json.Valid accepts is exactly that grammar, no deeper than 10000 |
| `JsonGrammar.ObjectKeeps` | services/relay/internal/delivery/consumer.go:302-306 | The members read from an object are the ones it spells, in order and each value byte for byte; no other text is read as an object |
| `JsonGrammar.NodeReads` | services/relay/internal/event/event.go:69-71 | Every spelling of a tree reads as one value, as deep as the tree |
| `JsonGrammar.NodeOf` | services/relay/internal/event/event.go:69-71 | Every value that reads is the spelling of a tree, as deep as it reads |
| `Event.ObjectReads` | services/relay/internal/event/event.go:89-109 | Any object written member by member parses back to those members, or nests too deep |
| `Event.PayloadReads` | services/relay/internal/event/event.go:112-129 | A body parses back to its two members |
| `Event.ValidatedArrives` | services/relay/internal/event/event.go:155-182 | A validated record is encoded and arrives with tenant, type and key intact and its data less trailing whitespace, unless it nests to the limit |
| `Event.DeepestDataIsLost` | services/relay/internal/event/event.go:69-71 | Data nested 10000 deep passes validation and is encoded, but no consumer can decode the record |
| `Event.NewIdIsDotFree` | services/relay/internal/event/event.go:134-140 | An id is 36 characters without a dot and determines its random bytes |
| `Text.EscapeReads` | services/relay/internal/event/event.go:72-83 | Reading a marshalled string gives its bytes with exactly the invalid ones replaced |
| `Text.EscapeRuneReads` | services/relay/internal/event/event.go:72-83 | The same for one character, escapes and line separators included |
| `Text.ShortEscapesAre` | services/relay/internal/event/event.go:72-83 | Quotes, backslashes and the five named control characters are written by their two-character escapes, and nothing else is |
| `Text.UnicodeEscapesAre` | services/relay/internal/event/event.go:72-83 | What is unsafe in HTML or a script, and an invalid byte, is written as the code point encoding/json gives it |
| `Text.OthersAreBare` | services/relay/internal/event/event.go:72-83 | Every other ASCII character stands for itself, and every other control character for its code point |
| `Text.Escape` | tools/m4-bootstrap/secret_scan.go:36-37 | Marshalling never shrinks a string and at most sextuples it |
| `Text.ToValidIsValid` | services/relay/internal/delivery/consumer.go:525-530 | Removing or replacing invalid bytes yields valid UTF-8 |
| `Text.ToValidKeepsValid` | services/relay/internal/delivery/consumer.go:525-530 | Valid UTF-8 is left as it is |
| `JsonLemmas.ValueExtends` | services/relay/internal/event/event.go:69-71 | A JSON value reads the same whatever separator and text follow it |
| `JsonLemmas.ValueEnds` | services/relay/internal/event/event.go:69-71 | A value is a front of its text that does not end in whitespace |
| `JsonLemmas.TrimmedIsWhole` | services/relay/internal/event/event.go:64-67 | A text is its own value exactly when neither end is whitespace |
| `DeadLetter.PoisonFits` | services/relay/internal/delivery/consumer.go:488-509 | For every key, value and error the dead letter with its key is under 1 MiB, and exists exactly when the record's timestamp can be marshalled |
| `DeadLetter.PoisonReads` | services/relay/internal/delivery/consumer.go:60-76 | It parses back to its parts: coordinates, sizes, flags and bounded bytes |
| `DeadLetter.BytesComeBack` | services/relay/internal/delivery/consumer.go:511-522 | The kept bytes decode from base64, and are all of them unless flagged truncated |
| `DeadLetter.BoundedCopy` | services/relay/internal/delivery/consumer.go:511-522 | A prefix of at most the limit, flagged exactly when something was cut; nil stays nil |
| `DeadLetter.ReasonIsBounded` | services/relay/internal/delivery/consumer.go:524-531 | Valid UTF-8 of at most 4096 bytes; a short reason is whole, a long one loses at most the suffix's room and three bytes |
| `DeadLetter.CutAtCharacter` | services/relay/internal/delivery/consumer.go:529-530 | Cutting valid text and dropping the broken end cuts less than four bytes earlier |
| `Base64.RoundTrip` | services/relay/internal/delivery/sign.go:37 | Standard base64 decodes to its bytes |
| `Base64.StandardTells` | services/relay/internal/delivery/sign.go:37 | No two values share a base64 text |
| `Base64.UrlReads` | tools/m4-bootstrap/secret_scan.go:58 | The unpadded URL text, read through the standard alphabet, decodes to its bytes |
| `Base64.UrlAlphabet` | tools/m4-bootstrap/secret_scan.go:58 | It holds letters, digits, - and _ only |
| `Base64.CharactersAre` | services/relay/internal/delivery/sign.go:37 | The 64 characters of both alphabets |
| `Base64.Encode` | tools/m4-bootstrap/secret_scan.go:57-58 | Exact lengths with and without padding |
| `Decimal.FormatParses` | services/relay/internal/delivery/sign.go:43-45 | Every int64 parses back from its decimal text |
| `Signing.Verify` | services/sink/main.go:333-367 | Missing exactly for an empty header, no timestamp exactly for one that does not parse, outside exactly when it is more than 300 s away, and otherwise accepted exactly when some field of the header is `v1,` and the base64 of the code of id, dot, timestamp, dot, body |
| `Signing.SenderAccepted` | services/sink/main.go:341-364 | What the relay signs the sink accepts exactly when the truncated timestamp is within five minutes of its clock |
| `Signing.RotationAccepted` | services/sink/main.go:354-365 | With several signatures a receiver holding any of the secrets accepts, in the same window |
| `Signing.ContentTells` | services/relay/internal/delivery/sign.go:34-36 | For dot-free ids the signed content determines id, timestamp and body |
| `Signing.DottedIdCollides` | services/relay/internal/delivery/sign.go:34-36 | With a dot in an id two messages share their content |
| `Signing.AcceptedIffSameCode` | services/sink/main.go:341-364 | A signature made for one message is accepted for another exactly when that one is complete, in the window, and has the same code under HMAC |
| `Signing.AcceptedIsWhatWasSigned` | services/sink/main.go:349-364 | With dot-free ids a signature is accepted only for the id, timestamp and body it was made for, unless HMAC gives those two contents one code |
| `Signing.CutIsV1` | services/sink/main.go:356-364 | Splitting at the comma and comparing is comparing the whole entry |
| `Sink.Sink.Store` | services/sink/main.go:554-576 | One locked section extends the history, bumps one outcome, and leaves one delivery uncounted |
| `Sink.Sink.CountReceived` | services/sink/main.go:577 | Outcome counts always sum to the total plus the deliveries between unlock and increment |
| `Sink.Sink.Record` | services/sink/main.go:554-578 | Both parts together |
| `Sink.Sink.Snapshot` | services/sink/main.go:585-601 | The tail of all deliveries since the last reset, oldest first, as long as the history, the retention and the limit allow; a limit of 0 and a negative retention bound nothing |
| `Sink.Sink.Reset` | services/sink/main.go:603-608 | Empties the history and keeps every counter |
| `Sink.Sink.Count` | services/sink/main.go:610-614 | The number retained |
| `Sink.IsTail` | services/sink/main.go:585-601 | The retained deliveries are the tail of the history |
| `Sink.TailOfTail` | services/sink/main.go:597-599 | A limit within the retained tail is a shorter tail of the history |
| `Sink.FullRing` | services/sink/main.go:566-573 | Overwriting the oldest slot keeps a full ring the newest of its history |
| `Sink.SumCounts` | services/sink/main.go:575 | Bumping one outcome adds one to the sum |
| `Latch.Latches.SetLatch` | services/sink/main.go:157-169 | Arming an armed path changes nothing |
| `Latch.Latches.EnterLatch` | services/sink/main.go:137-147 | A request parks on the armed channel and is counted, or passes |
| `Latch.Latches.LeaveLatch` | services/sink/main.go:149-155 | Held counts are exactly the requests inside |
| `Latch.ReleasedIsStillHeld` | services/sink/main.go:149-182 | A released request is no longer parked and is still counted as held |
| `Latch.Latches.ReleaseLatch` | services/sink/main.go:173-180 | Frees everything parked on a path and nothing else; no channel is closed twice |
| `Shutdown.Process.Execute` | services/relay/cmd/relay/main.go:220-252 | Refuses before anything runs, or runs every action once and in order despite errors, on consecutive slices that make up the sequence and its budget, and reports exactly the failures in order |
| `Shutdown.Check` | services/relay/cmd/relay/main.go:221-240 | Objects exactly when the actions do not own the sequence, and explains the first difference |
| `Shutdown.HandsOutTheBudget` | services/relay/config/retry.go:217-223 | Slices that make up a sequence are handed its whole budget |
| `Shutdown.ShippedPlansMatch` | services/relay/config/retry.go:180-193 | Both modes' actions own their sequence; the drains of 48 s and 31 s fit the 60 s and 45 s grace periods |
| `Representations.TextsFit` | tools/m4-bootstrap/secret_scan.go:35-60 | All seven texts of a value of 16 to 4096 bytes have 16 to 24576 bytes |
| `Representations.TextsReadBack` | tools/m4-bootstrap/secret_scan.go:35-60 | A reader of its own for each text gives the value back, its invalid bytes replaced in the JSON texts |
| `Representations.TextIsWritten` | tools/m4-bootstrap/secret_scan.go:35-60 | Each text keeps to its encoder's form: percent-encodings with upper-case digits and only the listed bytes bare, JSON strings with the escapes of either encoder, the alphabets of base64 |
| `Representations.PercentIsTheText` | tools/m4-bootstrap/secret_scan.go:56 | Of all texts in the percent-encoding's form that read back as the value, the encoding is the only one |
| `Representations.PercentReads` | tools/m4-bootstrap/secret_scan.go:56 | Decoding percent escapes, and plus as space in a query only, gives the bytes back |
| `Representations.JsonGoReads` | tools/m4-bootstrap/secret_scan.go:36-37 | The text between Go's quotes reads as the value |
| `Representations.JsonAsciiReads` | tools/m4-bootstrap/secret_scan.go:38-53 | Python's ASCII form reads as the value, surrogate pairs included |
| `SecretScan.Scan.Begin` | tools/m4-bootstrap/secret_scan.go:154 | Collecting, in memory and, if saved, on disk; the answer is the save's |
| `SecretScan.Scan.Record` | tools/m4-bootstrap/secret_scan.go:155-166 | While collecting, a value of 16 to 4096 bytes adds its seven fingerprints, each once, in some order, and is saved; otherwise nothing changes and the call fails |
| `SecretScan.Scan.Finish` | tools/m4-bootstrap/secret_scan.go:167-173 | Completes and saves exactly 21 entries |
| `SecretScan.Scan.Save` | tools/m4-bootstrap/secret_scan.go:131-153 | The file is replaced whole or left |
| `SecretScan.LoadSecretScan` | scripts/m4-evidence.py:732-768 | Of a receipt already decoded, accepted are exactly those of this run whose entries fit, each pair of name and representation once, none before the start, and all 21 where completeness is asked for or claimed |
| `SecretScan.CountIsCover` | scripts/m4-evidence.py:760-767 | Counting to 21, as the writer does, and comparing all pairs, as the reader does, is the same for entries that fit |
| `SecretScan.NamesAgree` | scripts/m4-evidence.py:35-43 | Both sides call the representations the same |
| `SecretScan.ReaderAcceptsIff` | scripts/m4-evidence.py:734-767 | Three recorded secrets always complete the writer; the reader accepts exactly when their names are its three |
| `SecretScan.Collect` | tools/m4-bootstrap/main.go:682-713 | A bootstrap that succeeds leaves a file the reader accepts, with all seven fingerprints of all three secrets; it fails only behind a failed write or at a value of another size |
| `SecretScan.LeakMatches` | scripts/m4-evidence.py:788-794 | A recorded secret in any of its texts, anywhere in a scanned value, is a match for the scanner |
| `SecretScan.LeakIsReached` | scripts/m4-evidence.py:771-839 | A file that leaks a recorded secret, in its bytes or carried in it at any depth, holds a match the scanner can reach |
| `SecretScan.ScanFile` | scripts/m4-evidence.py:771-839 | An accepted receipt is scanned with; a clean answer means that no secret with all its fingerprints in the receipt can be reached in the file in any of its texts, a credential match is real, and a file without a match or a reason to refuse it is clean |
| `SecretScan.CollectThenScan` | tools/m4-bootstrap/main.go:682-713 | After a bootstrap its receipt is accepted exactly when it succeeded, and no file in which any text of any of the three secrets can be reached is answered clean |

## Left out

- Relay.Do: the machine's forward replay resets, which skip records by design; `RelayExamples.ForwardResetSkips` shows that they must be excluded.
- Consumer.Consumer.Consume: the record deadline as a clock; whether a context has expired is a fresh answer at each read. The
  feed is a finite list, so a consumer that never stops is all its prefixes.
- Consumer.Consumer.Take: whether a record failed because a context ended is a fresh answer; a failure of a cancelled consumer may be
  returned as none.
- Consumer.Consumer.Handle: the tenant, event and letter contents passed to the lookup and the topic; letters are their coordinates and subscriber.
- Consumer.Consumer.Deliver: the goroutines are interleaved one event at a time; their shared memory is only the outcome each owns.
- Consumer.Consumer.MarkReady: the group-join watcher's polling of reader statistics; it only calls this method.
- Deliverer.Deliver: reason strings, spans, metrics and the nil recorder; history writes are not part of the worst-case time.
- Schedule.Jittered: float64 rounding; the fraction is a real.
- Schedule.ParseDelays: preset names and duration syntax; fields arrive trimmed and parsed.
- Store.AcceptanceStore.AcceptEvent: a missing pool or publisher, the acceptance timeout's clock, and microsecond rounding of times in the database.
- Store.AttemptStore.RecordAttempt: SQL itself; statements are the table functions of `EventDb`, and other clients are an interference relation.
- Acceptance.Normalize: strings are Unicode code points there, while `Event` and `Text` work on bytes.
- Processes.Executor.Run: pipes, WaitDelay and standard streams; a command ends in some time with some exit from -1 to 255.
- Controller.Controller.Run: preparation, the lock file, the go/no-go command, session creation and its validation; stop reasons
  other than their presence, error texts and times other than whether they are set.
- Controller.Controller.StopApply: signals other than SIGINT as the first one, which no caller passes.
- Controller.Controller.Cleanup: log deletion and the retry pauses' length.
- Verdict.ConcludedIff: the capture's clauses and time comparisons of the proof, and the phase `verifying_identity`, which the controller never writes.
- Scanner.ScanSecretBytes: JSON decoding, line splitting, the log-prefix pattern and base64 are functions of a library parameter; the decoded text is a tree.
- JsonGrammar.DocumentIff: what the escapes inside a string stand for; it says which texts are accepted.
- Event.EncodeRecord: time formatting; a time is its RFC 3339 text or unwritable.
- Event.RecordRoundTrip: keys that differ only in case, which json.Unmarshal would also accept as a field, and parsing of the time text; decoding is `Event.Decode`.
- DeadLetter.PoisonFits: delivery-failure dead letters, which carry up to 256 KiB of data re-marshalled with HTML escapes; no bound holds for them there.
- Signing.Verify: HMAC and constant-time comparison; header canonicalisation and trimming.
- Signing.SenderAccepted: times outside int64 seconds.
- Sink.Sink.Store: int64 width of the counters.
- Latch.Latches.EnterLatch: the wait itself and the listing for GET /control.
- Shutdown.Process.Execute: what the actions do, and bounded closing of resources.
- SecretScan.LoadSecretScan: file metadata, preflight and JSON types of the receipt; opening and claiming it for the bootstrap.
- SecretScan.Scan.Record: SHA-256; digests are a function of the text.
- HTTP routing, Kafka, Postgres, AWS, Terraform and Docker clients, tracing, metrics and dashboards.
- Staging, account, plan and inventory gates, capture and rehearsal drivers, text redaction and image checks: only easy members.
- Lag polling, topic bootstrap, MSK tokens, subscription URL checks and the echo service.
