# Verified model of the AI-Luo-Man-ga kernel

This project models the stateful protocols of the kernel in Dafny and proves what they are for:

- **Runtime loader** (`LoaderEntry`, `LoaderSystem`, `LoaderInvariant`, `LoaderTheorems`, `LoaderRuntimes`,
  `LoaderProgress`, `LoaderObjects`, `LoaderRefinement`, `PackageSwap`, `Registration`): leases, generations, loading
  and unloading, package upgrade, retired groups, and the registration of installed packages with its rollbacks. `LoaderSystem` is a state machine
  in which every region under one lock is one step; `Release` is two steps, and stopping a group is one step per
  member. `LoaderObjects` holds the same regions as methods on mutable objects.
- **Executor run loop** (`RunLoop`): one attempt's receive loop over any script of frames, contexts, store and stream
  answers, with budgets in 32- and 64-bit unsigned arithmetic, and the chain of retries.
- **Idempotent execution** (`Idempotency`, `IdempotencyTheorems`): any number of callers that interleave at every table statement.
- **Task scheduler** (`TaskLifecycle`, `TaskTheorems`, `Slots`, `Backoff`): the lease-guarded task table with workers, crashes and
  recovery; the two levels of slots at the granularity of one channel operation; the retry delay.
- **Event delivery** (`EventDelivery`, `DeliveryTheorems`, `EventHub`): one Echo's log, the hub's channels and its SSE clients.
- **Identity** (`Identity`): the identity tables and the binding revision as a version stamp.
- **Package documents** (`Ordering`, `PackStore`, `PackStores`, `Paging`): the document port, its two implementations,
  and the guest's paging loops.
- **Grants** (`Grants`, `GrantOrder`, `Pointer`, `Authorization`, `ChildGrants`): normalising, comparing, authorising
  and attenuating grants, and the resource pointer (RFC 6901, sections 3 and 4).
- **Context assembly** (`ContextAssembly`): reading the newest messages of a session and trimming them to three budgets.

State machines come with an invariant, a lemma that every step keeps it, and theorems over every reachable state or
every run. A run is a sequence of states joined by actions (`Behaviour`), a state is `Reachable` if it ends a run.
Beside safety there are theorems on what can always still happen: a retired group can be stopped whole
(`LoaderProgress.CanStopGroup`), a waiting task can succeed and a dead one be recovered (`TaskTheorems.CanSucceed`,
`TaskTheorems.CanRecover`), and a registered client can catch up (`DeliveryTheorems.CanCatchUp`).
Object methods are proved against functions on values, and the theorems are about those functions.

Six places where the code does something other than one would expect, and the model follows the code:

- `GrantSubset` is not transitive for a parent bound that lies before Go's zero time (a JSON time in year 0000 is such
  a bound), because a child without a bound passes it: `GrantOrder.TransitiveExactly` and `GrantOrder.NotTransitive`.
  Attenuation is sound all the same for every request dated at or after Go's zero time, and the program dates them by
  the clock (`internal/kernel/runtime/dispatcher.go:135-137`): `ChildGrants.AttenuationIsSound`, and over any depth of
  child runs `ChildGrants.DescendantsAreSound`.
- A stream closed by the end of an Echo may miss the last event of the log: exactly when that event was appended but
  not published when the hub was finished, the client did not have it before, and its replay had read the log before
  the event was there (`DeliveryTheorems.FinishCompleteExactly`, with runs of both kinds in
  `DeliveryTheorems.EarlyFinishEitherWay`).
- The history shown to a run can be shorter than the budgets allow: only one message more than the budget is listed,
  and a text deleted between listing and reading takes a place (`ContextAssembly.CutShortNeedsVanished`,
  `ContextAssembly.WindowCanEndEarly`).
- A call that reports an unknown outcome does not mean that the record is given up: the owner compares the clock it
  read after its callback, so a late update still completes the record. `IdempotencyTheorems.OpenExactly` says exactly
  when that can happen, `IdempotencyTheorems.LateCompletion` shows a run.
- A snapshot may be valid until a year that RFC 3339 cannot write with four digits. The row store accepts it and then
  fails every system read of its namespace, the nested maps do not (`PackStores.SameOutcomes`,
  `PackStores.FarSnapshotJams`).
- The delay of the orchestrator's retries is not normalised when its base exceeds its maximum: the loop then never
  runs and the base is returned (`Backoff.RetryDelay`).

## Model

| member | source | states |
|---|---|---|
| LoaderTheorems.InFlightConserved | internal/kernel/loader/loader.go:561-658 | In every reachable state an entry's in-flight count is its current count plus the counts of its retired versions, and each of them is the number of live leases of that generation |
| LoaderRuntimes.NoRuntimeIsLost | internal/kernel/loader/loader.go:428-559 | No runtime leaks: in every reachable state each runtime ever loaded is a candidate, the current one of its entry or a retired one in its slot, or its Stop has been called |
| LoaderTheorems.LeasedRuntimeNeverStopped | internal/kernel/loader/loader.go:788-837 | No runtime has been stopped while a live lease holds it, through loads, failures, unloads, recoveries, upgrades and shutdown |
| LoaderTheorems.StopOrderIsReverseDeclaration | internal/kernel/loader/packages.go:188-193 | The k-th runtime of a retired group's stop order is the old version of the k-th component from the end of the declaration |
| LoaderTheorems.StopsInOrderAfterDrain | internal/kernel/loader/packages.go:41-59 | Before any shutdown, the stops of a group's members are a prefix of its stop order, and the first one happens only when every member has drained |
| LoaderTheorems.DrainedGroupStoppedOnce | internal/kernel/loader/packages.go:48-59 | When all members have drained and no thread is between its steps on the group, its stops are the whole stop order and every member was stopped exactly once |
| LoaderTheorems.RetiredStoppedAtMostOnce | internal/kernel/loader/loader.go:351-361 | Even with a shutdown in the run, a retired version is stopped at most once, and only when no lease of its generation is left |
| LoaderProgress.CanStopGroup | internal/kernel/loader/packages.go:40-59 | No retired group gets stuck: from every state of the invariant a continuation of ending calls and of the stopping threads stops the whole group, and before a shutdown exactly in its stop order |
| LoaderProgress.CanServe | internal/kernel/loader/loader.go:561-658 | While the manager accepts, a registered component can be loaded and called; the call holds the new runtime in the next generation, and after its release the counts are as before |
| LoaderTheorems.LeasesOnRetiredOnlyShrink | internal/kernel/loader/packages.go:167-187 | From any point of a run to any later one, a replaced version stays in place and its set of leases only shrinks |
| LoaderTheorems.ShutdownLetsNothingIn | internal/kernel/loader/loader.go:839-847 | From the begin of a shutdown on, at every later point of the run, no call is let in and no component or package is registered; the leases that are left are some of those there were |
| LoaderInvariant.StepKeeps | internal/kernel/loader/loader.go:428-492 | Every locked region keeps the loader invariant: counters, lease ownership, group bookkeeping, stop log |
| LoaderInvariant.InvAlong | internal/kernel/loader/loader.go:428-492 | The loader invariant holds at every point of every run |
| LoaderInvariant.StopIfDrainedKeeps | internal/kernel/loader/packages.go:48-55 | Triggering a retired group keeps the invariant: a group is triggered only once its draining count has reached zero |
| LoaderInvariant.UpgradeKeeps | internal/kernel/loader/packages.go:167-196 | The switch of a whole package keeps the invariant, including the new group's draining count |
| LoaderInvariant.RollbackKeeps | internal/kernel/loader/loader.go:363-418 | Taking back a registration whose entries are neither loaded nor called keeps the invariant: no lease and no retired group loses its entry |
| LoaderObjects.RuntimeEntry.BeginLoad | internal/kernel/loader/loader.go:430-451 | The locked decision of a load: ready, failed, wait, or claim the load, which alone changes the entry |
| LoaderObjects.RuntimeEntry.FinishLoad | internal/kernel/loader/loader.go:454-468 | The entry after a load: ready with a new generation, or failed, with a new generation exactly when a runtime is kept |
| LoaderObjects.RuntimeEntry.TryAcquire | internal/kernel/loader/loader.go:582-593 | A lease is given exactly when the entry is ready with a runtime, for the current runtime and generation, and both counters go up by one |
| LoaderObjects.RuntimeEntry.InvokeFailed | internal/kernel/loader/loader.go:604-610 | An unavailable runtime marks the entry failed only if the lease is of the current generation |
| LoaderObjects.RuntimeEntry.Release | internal/kernel/loader/loader.go:628-646 | A release lowers the entry's count and that of the lease's own version, current or retired, and reports the version it drained |
| LoaderObjects.RuntimeEntry.BeginUnload | internal/kernel/loader/loader.go:788-808 | The locked decision of an unload: still in flight, already unloaded, not in a state to unload, or unloading the runtime handed out, which alone changes the entry |
| LoaderObjects.RuntimeEntry.FinishUnload | internal/kernel/loader/loader.go:788-837 | After a successful stop the entry is registered without a runtime, after a failed one it is failed |
| LoaderObjects.RuntimeEntry.SwapTo | internal/kernel/loader/packages.go:169-187 | One entry takes its candidate's manifest, host and runtime with a new generation and no calls, keeps its phase and in-flight count, and appends its old version with the calls it still has |
| LoaderObjects.RetiredRuntime.StopOnce | internal/kernel/loader/loader.go:351-361 | A retired runtime is stopped unless it was stopped before, and counts as stopped afterwards |
| LoaderInvariant.MemberDrainedKeeps | internal/kernel/loader/packages.go:41-46 | Counting a drained member down keeps the group's invariant: the draining count stays the number of members that still have calls or a count-down to come |
| LoaderObjects.RetiredGroup.StopIfDrained | internal/kernel/loader/packages.go:48-59 | The first call that finds the group drained stops every member not yet stopped, in the group's order; any other call stops nothing |
| LoaderObjects.RetiredGroup.MemberDrained | internal/kernel/loader/packages.go:41-59 | The count-down that reaches zero stops the pending members, in the group's order, and a group that was triggered before stops nothing more |
| LoaderObjects.StopCandidates | internal/kernel/loader/packages.go:217-223 | All candidates are stopped, in order |
| LoaderObjects.LoadCandidates | internal/kernel/loader/packages.go:123-145 | Candidates are loaded in declaration order up to the first component with a wrong identity, no serving host or a failed load |
| LoaderObjects.CheckSwitchable | internal/kernel/loader/packages.go:157-166 | The switch goes ahead exactly when every component is ready and its version really changes |
| LoaderObjects.SwapAll | internal/kernel/loader/packages.go:167-187 | Every component moves to its target, and the count returned is the number of old versions with calls in flight |
| LoaderObjects.UpgradePackage | internal/kernel/loader/packages.go:104-223 | Success exactly when the request is valid, the loader accepts it, the package is registered, every candidate loads and every component can be switched; then every entry has, field by field, the new manifest, host, runtime and generation and its old version retired, and the old versions form a group in reverse order, stopped at once if none has calls left; otherwise no component changed, exactly the loaded candidates were stopped and the error names the first cause |
| LoaderRefinement.UpgradeIsOneStep | internal/kernel/loader/packages.go:146-196 | The entries, the draining count and the stop order left by the loop over the locked entries are those of the state machine's single upgrade step |
| LoaderTheorems.NoOldLeaseAfterNewSibling | internal/kernel/loader/packages.go:146-196 | With locking, swapping and unlocking interleaved with acquisitions in any way, no lease on an old version follows a lease on a new version of a sibling |
| PackageSwap.CanSwap | internal/kernel/loader/packages.go:146-196 | An upgrade of a package at rest can always go on to its end, and then every component is one version further and none is locked |
| PackageSwap.CanFinish | internal/kernel/loader/packages.go:146-196 | An upgrade that has begun never gets stuck, whatever was acquired so far: its own steps bring it to the end with all components unlocked and of one version |
| Registration.ValidatePackageGroups | internal/kernel/loader/register_installed.go:85-106 | Accepted exactly when ids are stable, orders are not negative, and no package has a component or an order twice |
| Registration.SelectHost | internal/kernel/loader/loader.go:262-286 | A manifest is bound exactly when one candidate host and no other serves it, and to that host; no such host and several of them are different errors |
| Registration.CheckRecords | internal/kernel/loader/register_installed.go:37-50 | All records are valid, and the manifests and capability registrations collected are those of the records |
| Registration.OrderComponents | internal/kernel/loader/register_installed.go:62-70 | Sorting succeeds exactly when no declared order is too large, and then each component stands at its declared position and nothing else is in the list |
| Registration.Manager.RegisterBatch | internal/kernel/loader/loader.go:310-348 | The entries of a batch are published all together exactly when the manager accepts, all manifests are valid with one host each and all ids are new and different; every new entry is registered under its only host, without runtime, lease or generation; otherwise nothing changes, and the error is the one of the first manifest with a fault, of the shutdown or of a known id, in this order |
| Registration.Manager.RegisterPackages | internal/kernel/loader/packages.go:63-99 | The groups are published all together exactly when they are non-empty, resolve and are new; otherwise nothing changes, and the error is true of a group, of the shutdown or of a known package, in this order |
| Registration.Manager.RollbackRegistered | internal/kernel/loader/loader.go:363-383 | Exactly the batch's entries are removed if they are all untouched and unchanged, otherwise none |
| Registration.Manager.RollbackPackageRegistration | internal/kernel/loader/loader.go:387-418 | Exactly the batch's groups and entries are removed if every group member is untouched and of the batch, otherwise none |
| Registration.Registry.RegisterBatch | internal/kernel/registry/registry.go:57-102 | Capabilities are published all together exactly when the batch is not empty and all are valid, different and new; the error is that of the first capability with a fault, then that of a known id |
| Registration.Manager.RegisterInstalled | internal/kernel/loader/register_installed.go:30-83 | Success exactly when all conditions hold, and then entries, groups and capabilities gain exactly those of the records; on every failure, also after steps already done, all three are as before, and the error is that of the first step that has to fail |
| Registration.GroupsShareNothing | internal/kernel/loader/register_installed.go:54-73 | No component is published twice, within one package or in two |
| RunLoop.Screen | internal/kernel/echo/orchestrator.go:567-649 | A frame passes exactly when, judged by the log, no terminal frame came before, it is the run's own and next in number, and its body is well-formed, in order and within the budgets; a call is refused for the budget exactly when it is good and no calls are left |
| RunLoop.OnFrame | internal/kernel/echo/orchestrator.go:567-800 | What a frame adds to the log and how it settles the run is exactly what the log so far asks for, in every case of contexts, store and stream |
| RunLoop.OnStreamEnd | internal/kernel/echo/orchestrator.go:518-566 | The settlement is exactly what the log asks for: cancellation, lost lease and deadline first, success at an end of stream after a final result whose completion is recorded, else a failure with the delivery's, the executor's own or the stream's error |
| RunLoop.OnCapabilityCall | internal/kernel/echo/orchestrator.go:695-747 | A call is dispatched with the number of earlier calls of the same capability, an unsafe one rules out a retry before it runs, and its result, its return and its record settle the run exactly as the contexts say |
| RunLoop.OnOutputDelta | internal/kernel/echo/orchestrator.go:748-766 | A delta is accepted exactly when it fits the remaining output budget, an oversized one ends the run without a retry, an undelivered one settles it, and the unsigned difference does not underflow |
| RunLoop.RecordUsage | internal/kernel/echo/orchestrator.go:676-686 | The metrics grow by exactly the difference between the new and the old cumulative usage, without underflow |
| RunLoop.ReceiveLoop | internal/kernel/echo/orchestrator.go:495-802 | For every script: each turn goes exactly by rules stated on the log alone, in particular a retry is written exactly when the error may be retried, all that was dispatched is safe to replay, attempts remain and the store accepts it; every persisted frame is the run's own; the log is sound (consecutive numbers, effects only after their number is persisted and after the handshake, distinct calls and all budgets kept, final result after usage and last); every exit settles the run once |
| RunLoop.FailPublicIs | internal/kernel/echo/orchestrator.go:979-1002 | With the loop's variables in step with the log, a failure writes a retry exactly when the error may be retried, all calls in the log are safe to replay and attempts remain, with fresh budgets and the next number; else, or if the store refuses it, the failed completion |
| RunLoop.InvSound | internal/kernel/echo/orchestrator.go:495-515 | What the loop keeps in its variables implies all guarantees on the log |
| RunLoop.EffectOrder | internal/kernel/echo/orchestrator.go:578-639 | Adding an effect the checks allow keeps the order guarantees: persisted first, handshake first and once, final after usage, nothing after a terminal frame |
| RunLoop.RunChain | internal/kernel/echo/orchestrator.go:979-1054 | Over a whole retry chain attempts are numbered one by one and never beyond the maximum, each starts with fresh budgets and keeps all else, and an attempt that dispatched a capability that is not replay-safe is the last; the chain ends only where no retry was written |
| IdempotencyTheorems.AtMostOnce | internal/kernel/idempotency/idempotency.go:139-147 | Two callback runs are never on the same key, however many callers there are |
| IdempotencyTheorems.RefusalsAreTrue | internal/kernel/idempotency/idempotency.go:172-201 | A caller told of a conflict met a record of another fingerprint, and one told of an unknown outcome met its own record past its lease |
| IdempotencyTheorems.SuccessIsTheOneRun | internal/kernel/idempotency/idempotency.go:147-202 | Every successful return carries the bytes of the one callback run on its key, which was made for the caller's own fingerprint |
| IdempotencyTheorems.SuccessesAgree | internal/storage/sqlite/idempotency_store.go:37-45 | Successful calls on one key have the same fingerprint and the same bytes, and only one of them is not a replay |
| IdempotencyTheorems.FailureIsTheOneRun | internal/kernel/idempotency/idempotency.go:147-158 | A replayed failure means that the one run failed or returned more than can be stored |
| IdempotencyTheorems.RecordHistory | internal/storage/sqlite/idempotency_store.go:119-139 | Along any run a record keeps its fingerprint and lease and leaves executing at most once; one that is not open never changes again |
| IdempotencyTheorems.OpenExactly | internal/kernel/idempotency/idempotency.go:147-164 | A record can still change exactly while it is open: executing, with an owner that has either not finished its callback while the lease runs, or has read the clock after its callback before the lease's end |
| IdempotencyTheorems.LateCompletion | internal/kernel/idempotency/idempotency.go:159-161 | A run in which a record is completed after its lease's end: one call has been told that the outcome is unknown, and a later one gets the stored bytes |
| Idempotency.StepKeeps | internal/storage/sqlite/idempotency_store.go:20-45 | Every statement of every caller keeps the invariant that ties callers, records and callback runs together |
| Idempotency.ReplayOrWait | internal/kernel/idempotency/idempotency.go:172-202 | A call waits exactly on records of its own fingerprint that are executing within their lease; it ends with the verdict of the record in sight, a success with its bytes, a failure or an unknown outcome, or with what interrupted it |
| Idempotency.RecordTable.BeginIdempotent | internal/storage/sqlite/idempotency_store.go:13-45 | A record is inserted only where there is none and for a lease that has not ended, and the caller is told so only for its own fingerprint |
| Idempotency.RecordTable.CompleteIdempotent | internal/storage/sqlite/idempotency_store.go:97-141 | The record is completed exactly when it is executing under the caller's own lease, not ended at the given reading, and the table accepts the result; each failure has exactly its cause |
| Idempotency.RecordTable.Execute | internal/kernel/idempotency/idempotency.go:115-170 | The callback runs exactly when the key is new; its bytes are stored and returned exactly when they could be stored in time, a failed or oversized one is recorded as failed, a late or refused one leaves the record executing; a later call gets the stored bytes, the failure or, past the lease, an unknown outcome |
| TaskTheorems.AttemptAndDeadlineBounds | internal/kernel/task/task.go:92-136 | In every reachable state attempts lie between one and the task's maximum, the next start lies before the deadline, and exactly running tasks hold a lease |
| TaskTheorems.ClaimsAndHandlersBounded | internal/kernel/task/scheduler.go:374-383 | A task is claimed at most as often as its maximum, handlers begin at most once per claim, and at most once in all when its type allows no retry |
| TaskTheorems.OneHandlerPerAttempt | internal/storage/sqlite/task_store.go:164-190 | Two handler runs of one task belong to different attempts |
| TaskTheorems.CanSucceed | internal/kernel/task/scheduler.go:268-372 | From every state of the invariant a waiting task that is due can be claimed, run once and end as succeeded, and no other row changes |
| TaskTheorems.CanRecover | internal/kernel/task/scheduler.go:415-458 | A running task can be recovered after a crash of every worker once its lease has ended, and no other row changes |
| TaskTheorems.TerminalAbsorbs | internal/kernel/task/task.go:172-203 | Once a task is terminal its row never changes again, in any run with crashes and recoveries |
| TaskTheorems.OneEndPerClaim | internal/storage/sqlite/task_store.go:219-303 | Of all the writes of a claim's worker and of any recovery passes, one at most ends the claim, and nothing gives the task back to it |
| TaskTheorems.ExecutionEnds | internal/kernel/task/scheduler.go:324-371 | An ended execution changes exactly its own row, and only under its unexpired lease: success, the deadline's failure, cancellation or a failure as its cause asks, a shutdown leaves it, and a retryable failure waits for the next attempt exactly if the type allows it, attempts remain and it would start before the deadline |
| TaskTheorems.ClaimRefused | internal/kernel/task/scheduler.go:292-309 | A claim refused before its handler begins has failed, one cancelled before is cancelled, and without its lease nothing changes |
| TaskTheorems.DeadEnds | internal/kernel/task/scheduler.go:427-458 | A recovery pass changes exactly the row that still has the listed lease past its end: failed past the deadline, else retried or failed as for a lost lease |
| TaskLifecycle.StepKeeps | internal/kernel/task/scheduler.go:324-383 | Every claim, write, renewal, recovery, cancellation and crash keeps the life-cycle invariant |
| TaskLifecycle.TaskStore.ClaimTask | internal/storage/sqlite/task_store.go:164-190 | A task is claimed exactly when the lease is a proper one and the task waits without a lease and is due, and then runs under the new lease; nothing else changes |
| TaskLifecycle.TaskStore.CreateTask | internal/storage/sqlite/task_store.go:139-162 | A task is inserted exactly when it is a proper new one and its key is free; otherwise nothing changes |
| TaskLifecycle.TaskStore.CancelQueuedTask | internal/storage/sqlite/task_store.go:305-337 | A task that waits becomes cancelled and nothing else of it changes but its lease and error; a running or ended one is left alone |
| TaskLifecycle.TaskStore.RenewTaskLease | internal/storage/sqlite/task_store.go:192-217 | A lease is extended exactly by its holder and before it ends; a failure says whether the arguments were bad, the lease is lost or the task has moved on |
| TaskLifecycle.TaskStore.EndClaim | internal/storage/sqlite/task_store.go:219-303 | The worker's write succeeds exactly under its unexpired lease and with valid arguments, and then the one row has, field by field, the status, error, attempt and start of the write and no lease; a failure says whether the arguments were bad, the lease is lost or the task has moved on |
| TaskLifecycle.TaskStore.EndDead | internal/storage/sqlite/task_store.go:402-459 | The recovery's write succeeds exactly on the same lease past its end, with the same change of the one row and the same three failures |
| TaskLifecycle.TaskStore.RecoverDeadTasks | internal/kernel/task/scheduler.go:415-460 | Whatever happened to the rows since they were listed: a listed row changes exactly if it still has the listed lease and that lease is past its end, then as decided on the listed copy, and no other row changes |
| TaskLifecycle.DeadIsRecovered | internal/kernel/task/scheduler.go:427-458 | A dead task whose row is as listed has failed for its deadline if that has passed; else it waits for its next attempt exactly if its type, its attempts and its deadline allow it, and has failed for its lost lease otherwise |
| Slots.SlotsConserved | internal/kernel/task/scheduler.go:606-637 | Between any two channel operations the global slots taken are the App slots taken plus the claims half way, and no limit is exceeded |
| Slots.ReleaseNeverBlocks | internal/kernel/task/scheduler.go:623-626 | What a release or a back-off takes out of a channel is there |
| Slots.ReleasedExactlyOnce | internal/kernel/task/scheduler.go:215-270 | No claim gives its pair of slots back twice, and exactly the claims that have left have given it back |
| Slots.ClaimsGoOneWay | internal/kernel/task/scheduler.go:229-329 | A handler runs only for a claim that succeeded in time, and at most once; a claim that gives its slots back failed, or came after the deadline, or its handler ran and returned, and only one of these |
| Slots.CanLeave | internal/kernel/task/scheduler.go:229-270 | Whatever the other claims do, a claim that has its slots can go on to its end and then has given back exactly what it held |
| Slots.SlotPool.AcquireSlots | internal/kernel/task/scheduler.go:607-621 | Both slots are taken or neither, exactly when both levels have room |
| Slots.SlotPool.ReleaseSlots | internal/kernel/task/scheduler.go:623-626 | One slot is given back on each level and no other App's slots change |
| Backoff.RetryDelay | internal/kernel/echo/orchestrator.go:1056-1067 | The loop computes the minimum of base doubled attempt-1 times and the maximum exactly when base is at most the maximum; the delay is that times 800 to 1200 thousandths by the hash byte, between the floors of 4/5 and 6/5 of it, and no 64-bit operation overflows |
| Backoff.CappedGrows | internal/kernel/task/scheduler.go:593-604 | A later attempt never waits less, before the jitter |
| Backoff.OverflowBound | internal/kernel/task/scheduler.go:601-603 | The jitter's product fits 64 bits for every hash byte exactly when the maximum is at most (2^63-1)/1200 |
| DeliveryTheorems.ReceivedIsTheLog | internal/access/web/server.go:373-438 | What a client has received is, event by event, the persisted log after its Last-Event-ID: no gap, no duplicate, ascending |
| DeliveryTheorems.ReplayIsComplete | internal/access/web/server.go:394-410 | A stream that ends because the Echo was not running has delivered the whole rest of the log |
| DeliveryTheorems.FinishCompleteExactly | internal/access/web/server.go:373-438 | A stream closed by the end of the Echo has delivered the whole rest of the log exactly when nothing appended was left unpublished, or the replay had read it, or the client had it before |
| DeliveryTheorems.EarlyFinishEitherWay | internal/access/eventhub.go:59-83 | Two runs end with the last event unpublished: in one the client misses it, in the other it has it from the replay |
| DeliveryTheorems.EarlyFinishMissesAtMostOne | internal/access/eventhub.go:74-83 | Whenever a stream is closed by the end of the Echo, at most the last event of the log is missing |
| DeliveryTheorems.NeverPanics | internal/access/eventhub.go:43-83 | In no interleaving is anything sent on a closed channel or a channel closed twice |
| DeliveryTheorems.CanCatchUp | internal/access/web/server.go:373-438 | A client that is still registered can, at any stage, always take what it has left, and then has received everything published after its Last-Event-ID |
| EventDelivery.StepKeeps | internal/access/eventhub.go:32-83 | Every append, publish, subscribe, receive, overflow, finish and cancel keeps the delivery invariant |
| EventHub.Hub.Subscribe | internal/access/eventhub.go:32-56 | A new, open, empty channel is registered under the key and no other registration changes |
| EventHub.Hub.Cancel | internal/access/eventhub.go:43-55 | Afterwards the channel is not registered; it is closed exactly if it was, so that a second call does nothing |
| EventHub.Hub.Publish | internal/access/eventhub.go:59-71 | Every subscriber of the key with room gets the event, one with a full channel is closed and no longer registered and keeps what it had, and nobody else notices |
| EventHub.Hub.Finish | internal/access/eventhub.go:74-83 | Exactly the key's channels are closed and forgotten |
| EventHub.EchoEvents | internal/access/web/server.go:384-438 | What is sent is the log after the client's last event; unless a write fails it covers all that was read and all that the channel yielded before it closed |
| EventHub.FollowEvents | internal/access/web/server.go:413-438 | Live events already sent in the replay are skipped and every other one is the next one due |
| Identity.RevisionIsAVersionStamp | internal/storage/sqlite/identity_store.go:19-28 | Along any history an App's revision never decreases, and at two points with equal revision every external identity of the App resolves to the same outcome |
| Identity.StepStamps | internal/kernel/identity/service.go:98-139 | One mutation moves an App's revision up or leaves what all its identities resolve to |
| Identity.DisableTakesEffect | internal/storage/sqlite/identity_store.go:144-175 | Disabling a user at once disables every identity bound to it and moves the revision of its App |
| Identity.IdentityStore.ResolveIdentity | internal/kernel/identity/service.go:98-139 | An identity resolves exactly if it is bound to an active user, to the App's revision and the membership the user has there, if any; a disabled user has an error of its own |
| Identity.IdentityStore.Create | internal/storage/sqlite/identity_store.go:30-60 | A user is created active exactly when the id is free, and no revision moves |
| Identity.IdentityStore.AppsOf | internal/storage/sqlite/identity_store.go:147-170 | The Apps to invalidate are exactly those that see the user through a membership or a binding |
| Identity.IdentityStore.SetUserStatus | internal/storage/sqlite/identity_store.go:92-184 | The status is set, and exactly the Apps that see the user move their revision by one; an unchanged status changes nothing |
| Identity.IdentityStore.BindExternalIdentity | internal/storage/sqlite/identity_store.go:186-261 | A new binding needs an existing active user; the same binding again changes nothing and another user is refused |
| Identity.IdentityStore.UnbindExternalIdentity | internal/storage/sqlite/identity_store.go:263-296 | An existing binding is removed and the revision moves, a missing one is an error |
| Identity.IdentityStore.PutMembership | internal/storage/sqlite/identity_store.go:325-391 | A membership needs an existing user and roles; the same roles again change nothing, others replace the set and move the revision |
| PackStore.ListedUnique | internal/storage/sqlite/packstore.go:195-224 | The outcome of a list is determined by the contents, the bound and the limit |
| PackStore.NamespaceDeterminesPackage | internal/kernel/packstore/packstore.go:151-169 | Two valid scopes that agree but for the package are the same scope |
| PackStore.NamespaceMatches | contracts/pkg/packagecontract/format.go:55-57 | The position-by-position check of a namespace accepts exactly what its regular expression matches, up to 128 characters |
| Common.StableIdMatches | contracts/pkg/capability/spec.go:14-19 | The position-by-position check of a stable identifier accepts exactly what its regular expression matches, up to 128 characters |
| PackStore.StableMixedMatches | internal/kernel/id/id.go:7-10 | The check of a user identifier accepts exactly what its regular expression matches |
| PackStore.ValidateSnapshot | internal/kernel/packstore/packstore.go:208-240 | A snapshot is accepted exactly when its meta data, the number of its collections and all of its documents are in order |
| PackStore.WritesAreIsolated | internal/kernel/packstore/packstore.go:129-147 | A put or a delete changes nothing that another scope can see |
| PackStore.SnapshotsAreIsolated | internal/storage/sqlite/packstore.go:227-292 | A snapshot changes nothing that a personal scope, another namespace or another App can see |
| PackStore.GetAfterPut | internal/kernel/packstore/packstore.go:133-147 | A document put is read back, and gone after its deletion |
| PackStore.GetAfterReplace | internal/kernel/packstore/packstore.go:143-147 | After a snapshot exactly its documents can be read, with its data |
| PackStores.ScopeKeyInjective | internal/storage/memory/packstore.go:31-33 | The joined key separates any two valid scopes |
| PackStores.MapStore.Get | internal/storage/memory/packstore.go:58-73 | The read the port prescribes for the contents |
| PackStores.MapStore.Put | internal/storage/memory/packstore.go:75-86 | The write the port prescribes, with the same errors, and the nested maps still hold exactly the contents |
| PackStores.MapStore.Delete | internal/storage/memory/packstore.go:88-99 | The deletion the port prescribes, with the same errors |
| PackStores.MapStore.List | internal/storage/memory/packstore.go:101-124 | The first documents above the bound in ascending order, with the snapshot's data |
| PackStores.MapStore.ReplaceSnapshot | internal/storage/memory/packstore.go:126-149 | Exactly the namespace's system documents are replaced, or nothing when validation fails |
| PackStores.RowStore.Get | internal/storage/sqlite/packstore.go:34-101 | The read the port prescribes for the contents, unless the snapshot has a time that cannot be read back; then the read fails |
| PackStores.RowStore.Put | internal/storage/sqlite/packstore.go:103-134 | The write the port prescribes, with the same errors |
| PackStores.RowStore.Delete | internal/storage/sqlite/packstore.go:136-169 | The deletion the port prescribes, with the same errors |
| PackStores.RowStore.List | internal/storage/sqlite/packstore.go:171-225 | The first documents above the bound in ascending order, with the snapshot's data, unless the snapshot has a time that cannot be read back |
| PackStores.RowStore.ReplaceSnapshot | internal/storage/sqlite/packstore.go:227-292 | Exactly the namespace's system documents are replaced, and exactly one snapshot of it is current |
| PackStores.CurrentReplaced | internal/storage/sqlite/packstore.go:245-275 | Clearing the old flag and setting the new one leaves at most one current snapshot per App and namespace |
| PackStores.ExplainsUnique | internal/kernel/packstore/packstore.go:129-147 | The port determines an operation's outcome and the contents it leaves, so any two implementations agree |
| PackStores.SameOutcomes | internal/storage/memory/packstore.go:13-29 | Every sequence of operations, valid or not, has the same outcomes on the nested maps and on the rows exactly if none reads under a snapshot with a time that cannot be read back; such a read fails on the rows, and no other outcome differs |
| PackStores.ReadableNeverJams | internal/storage/sqlite/packstore.go:54-59 | Snapshots of which all times lie in the years 0 to 9999 never make the stores differ |
| PackStores.FarSnapshotJams | internal/kernel/packstore/packstore.go:199-206 | A snapshot that validation accepts, valid until year 10000, and a read after it on which the stores differ |
| Ordering.PageUnique | internal/storage/memory/packstore.go:109-118 | A page is determined by the set, the bound and the limit |
| Paging.UserCollection | guestkit/collection.go:84-109 | Paging ends whatever is written or deleted between the pages; it yields, once each and in ascending order, every document that was there throughout and none that never was, so an unchanged collection of any size as a whole; it fails only with a failed list call or an undecodable document |
| Paging.FetchSnapshotCollection | guestkit/collection.go:29-63 | With snapshots and documents replaced between pages, paging ends; a success comes from calls that all found one revision, carries the snapshot data of the last one, and has every document that was there throughout and none that never was, all of that revision; if the contents did not change, or a revision names one content, it is the whole of the revision |
| Paging.DecodeRevision | guestkit/collection.go:116-130 | A page decodes exactly when every document decodes and no marked one names another revision |
| Grants.NormalIsNormal | contracts/pkg/capability/spec.go:126-134 | A normalised grant is valid, with the same resources in strictly ascending order |
| Grants.NormalizeGrant | contracts/pkg/capability/spec.go:113-135 | A grant is accepted exactly when it is well-formed with distinct stable resource ids |
| GrantOrder.GrantSubset | contracts/pkg/capability/spec.go:140-168 | The loops decide the field-by-field comparison |
| GrantOrder.NarrowGrant | contracts/pkg/capability/spec.go:171-181 | Narrowing succeeds exactly for valid grants of which the requested one is under the parent, and returns it normalised |
| GrantOrder.SubsetTransitive | contracts/pkg/capability/spec.go:140-168 | Under a middle grant that does not lose its parent's lower bound, the relation is transitive |
| GrantOrder.TransitiveExactly | contracts/pkg/capability/spec.go:140-168 | For any two valid grants, all that lies under the one lies under the other exactly when the one itself does and the other's lower bound is not lost |
| GrantOrder.NotTransitive | contracts/pkg/capability/spec.go:140-168 | Three valid grants between which transitivity fails |
| Authorization.Authorize | internal/kernel/authorization/authorization.go:47-103 | A call is admitted exactly when declaration, caller and resource are good and some grant has, field by field, what the request needs, with no grant before it whose relationship cannot be looked up; the grant returned has it too; each refusal is given exactly for its own cause in the order of the checks, and the duties returned are those of the capability |
| Authorization.NarrowingIsSound | internal/kernel/authorization/authorization.go:64-103 | A request dated at or after Go's zero time and authorised with grants that all lie under others is authorised with those too, or stopped by a failed relationship lookup; it is never just denied |
| Authorization.AdmittedAboveExactly | internal/kernel/authorization/authorization.go:65-71 | Of the requests a grant admits, the grant above admits exactly those that do not come before a lower bound that was lost, so all but some dated before year 1 |
| Authorization.EarlyRequestAdmitted | internal/kernel/authorization/authorization.go:65-71 | For every grant that has lost a bound there is such a request, admitted by it and skipped by the grant above |
| ChildGrants.AttenuateGrants | internal/kernel/childrun/childrun.go:202-249 | Attenuation succeeds exactly when every candidate is valid and covered by a parent and a policy grant, none creates children, ids differ and there are at most 64; the result is the candidates, normalised, in strict id order, each with what was requested and bound to the child run, and authorises nothing that the parent's or the policy's grants would not |
| ChildGrants.AttenuatedLiesUnder | internal/kernel/childrun/childrun.go:217-235 | Every attenuated grant is valid, lies under a parent grant and under a policy grant and creates no children |
| ChildGrants.AttenuationIsSound | internal/kernel/childrun/childrun.go:209-239 | Whatever a call, when lookups answer and the clock is not before year 1: what attenuated grants authorise, the parent's grants and the policy's authorise too |
| ChildGrants.DescendantsAreSound | internal/kernel/childrun/childrun.go:202-249 | However deep the tree of child runs, a descendant's grants authorise no more than those of any ancestor and than any policy on the way |
| Pointer.TokensOfRendered | internal/kernel/authorization/authorization.go:113-114 | Splitting and unescaping a rendered pointer gives back its tokens, for every non-empty list |
| Pointer.UnescapeEscape | internal/kernel/authorization/authorization.go:114-114 | Unescaping in this order inverts the escaping of RFC 6901, section 3 |
| Pointer.RenderInjective | internal/kernel/authorization/authorization.go:113-114 | Different token lists have different pointers |
| Pointer.ResourceId | internal/kernel/authorization/authorization.go:105-129 | The walk finds exactly the stable identifier its tokens lead to through objects, or nothing |
| Pointer.RenderedPointerNames | internal/kernel/authorization/authorization.go:105-129 | A rendered pointer names what its tokens lead to |
| ContextAssembly.AssembleHistory | internal/kernel/contextasm/contextasm.go:190-237 | The kept history is the longest suffix of the window's entries within the message and character budgets, with recomputable counters; kept plus trimmed is all of them; it is the longest of the whole session exactly unless the next entry beyond the window would still meet both budgets |
| ContextAssembly.Assemble | internal/kernel/contextasm/contextasm.go:160-188 | The kept history is the longest suffix of the window within all three budgets together, and each failure has exactly its cause: bad input, a failed listing or body, or not even an empty history fits |
| ContextAssembly.WindowExactly | internal/kernel/contextasm/contextasm.go:168-178 | With a rendering that grows with its entries, what fits best in the window fits best in the whole session exactly unless the next older entry would still meet all three budgets |
| ContextAssembly.CutShortNeedsVanished | internal/kernel/contextasm/contextasm.go:194-223 | That happens only if there are more messages than the window holds and a text in it was deleted between listing and reading |
| ContextAssembly.WindowCanEndEarly | internal/kernel/contextasm/contextasm.go:194-223 | A session in which it happens |
| ContextAssembly.DropKeeps | internal/kernel/contextasm/contextasm.go:363-373 | Dropping the oldest message keeps character count and version equal to recomputing them |
| ContextAssembly.ShortIsMonotone | internal/kernel/contextasm/contextasm.go:225-232 | A shorter suffix never breaks the message or character budget |
| ContextAssembly.BuildEntries | internal/kernel/contextasm/contextasm.go:210-223 | The entries and the truncated characters are those of the eligible messages, and one unreadable body fails them all |
| ContextAssembly.EntryOf | internal/kernel/contextasm/contextasm.go:239-264 | A text's content is its prefix within the per-message budget, with the hash of the whole text; other messages have none, and a deleted text gives no entry |
| ContextAssembly.TotalChars | internal/kernel/contextasm/contextasm.go:375-381 | The sum of the entries' characters |

## Left out

- HTTP, gRPC, WebSocket and SSE byte formats, the QQ adapter, process and wasm hosts, logging and metrics.
- Parsing and validating manifests, versions, JSON Schemas and identifier syntax of users, tasks and platforms: the model takes their verdicts as given, or keeps only the checks the properties need.
- SHA-256, JSON encoding and rendering: parameters of the model; nothing depends on what they compute.
- Generations, lease tokens, subscriber ids and the identity revision are unbounded numbers; a fresh runtime is assumed for every load and a fresh token for every claim.
- The loader's generation-guarded waiting on a transition channel: a waiting caller simply tries again later.
- The error-path locks of `RegisterInstalled` against other registrations at the same time: its steps are sequential in the model.
- Package groups with a component listed twice: `RegisterPackages` would accept one and an upgrade would then lock itself out; `RegisterInstalled` never makes one.
- Stop order under `Shutdown`, which may stop retired members outside the group's order; exactly-once and drained-first still hold then.
- The frames' token, text and JSON rules are one flag per body; a capability's own dispatch, its audit record and the replay of its stored result are one step.
- The overlap of a renewed lease with the run's context is one flag per turn of the receive loop.
- Sums of budgets over sibling child runs, and the budget checks of a child run against its parent.
- The scheduler's map of running executions, ticker fairness, and that anything happens eventually: what can always happen is proved, not that it does.
- Task types that are registered later: the registry is fixed over a run.
- Lengths of pointers and identifiers are counted in characters of the model's strings, which stand for Go's bytes.
- The clock never goes back, and instants are compared exactly: SQLite's `julianday` compares to the millisecond. Stored times other than a snapshot's are taken to be readable.
- SQL text, transactions and their failures, except where a lost answer matters (idempotency): each statement or transaction is one atomic step.
- More than one emitter of an Echo's events at a time: one root run of an Echo emits at a time, and it publishes an event before it appends the next.
- The store and stream ports of the run loop are atomic; how a frame's public error code is named is not modelled, only whether it may be retried.
- Reads of an identity that interleave with mutations: resolving is one step.
- Idempotency.RecordTable.Execute: one caller alone, and no store errors but a refused empty result; interleavings, lost answers and failures are covered by the state machine.
- IdempotencyTheorems.OpenExactly: takes an empty result as stored; where the driver binds a nil slice as NULL the table refuses it, and a record whose owner holds one stays executing.
- LoaderInvariant.RollbackKeeps: asks for entries that were never upgraded and that no remaining package has, as on the start-up path that takes a registration back.
- ContextAssembly.Assemble: the checks of the input are one flag, and the bytes of the rendering are a parameter; a body that is deleted or fails to read is fixed over one assembly.
- Paging.FetchSnapshotCollection: the ids that can occur are a finite set, as short identifiers are; governing the snapshot data afterwards is left out.
- LoaderObjects.UpgradePackage: the verdict of manifest validation and the outcomes of host selection and loading are parameters; calls and shutdowns that interleave are covered by the state machine.
