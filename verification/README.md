# Verified models of a Chainlink node

These Dafny modules model the parts of the vendored Chainlink node (`lib/chainlink/core`) whose correctness depends on
interleavings, long runs or exact text and byte formats, and prove what those parts are for. `dafny verify dfyconfig.toml`
checks everything.

| file | what it models |
|---|---|
| `StartStopOnce.dfy` | the seven-state lifecycle guard, as atomic steps of any number of concurrent callers |
| `LifecycleCalls.dfy` | what one call of the guard is answered, in any run |
| `ChainSetProtocol.dfy` | the chain set under concurrent `Chain`, `Start` and `Close`, driven by that guard |
| `ChainSetCalls.dfy` | what one call of `Chain` is answered, in any run, and what can happen in a run |
| `ChainSetTable.dfy` | the chain set against its table: `Chain`, `Add`, `Configure`, `Remove`, `Start`, `Close` on the object |
| `MultiStart.dfy` | services, and the starter that closes what it started |
| `SleeperTask.dfy` | the background worker, its wake-ups and its stop |
| `WakeUps.dfy` | what one `WakeUp`, `WakeUpIfStarted` or `Stop` does, in any run |
| `Mailbox.dfy`, `MailboxNotify.dfy` | the mailbox, and its notify channel under concurrency |
| `BoundedQueues.dfy` | the bounded queue and the bounded priority queue |
| `DecimalDigits.dfy`, `DecimalNumber.dfy` | digit strings and fixed-point numbers, as amounts are printed and parsed through |
| `Wei.dfy`, `Currencies.dfy` | amounts of wei, LINK and ETH as text |
| `EvmWord.dfy` | 32-byte EVM words and the encoding of byte strings |
| `NormalizedJson.dfy` | normalised JSON text, and a reader that recovers the tree |
| `Sessions.dfy` | the users and sessions tables, and the reaper |
| `Bridges.dfy` | the bridge table and its cache |
| `Pagination.dfy` | page parameters, page slices and page links |

Two kinds of models appear. Protocols are state machines: a shared state, one program counter for each caller, and a
relation for each atomic step; a run is any sequence of states that starts in an initial one and follows the steps of
any caller in any order, and the theorems are about every state of every run. Objects that change their own fields are
classes whose methods are proved against functions or relations on values; the theorems are about these, over all runs
of calls. Whether something outside the code succeeds is an argument of a call and not a choice of its model: what a database,
a service or a writer does is given by `db`, `makes`, `Journal.fates` and `Writer.room`. In the protocols each step that
depends on the outside allows each outcome, which is proved (`CallbackCanEnd`, `MissingChainCanBeMade`, `MakingCanFail`,
`EachCanBeStarted`, `EachCanFail`, `EachCanBeClosed`, `StopCanEnd`).

The users table is filed under its unique index on the lower-case email
(`lib/chainlink/core/store/migrate/migrations/0131_add_multi_user.sql:12`), the sessions table under the session id, and deleting a user
cascades to its sessions (line 18 of that migration).

What the proofs found where code and documentation, or code and expectation, part:

- The comment in `StopOnce` says that Stop waits for a start that has begun. It does once the start callback has begun
  (`StopWaitsForBegunStart`). Before that, a call can be turned away although a start has won its compare-and-swap: exactly if
  that start is still waiting for the lock when the call, which then holds the lock, takes its last look at the state
  (`StopRejectedIff`, `StopCanOvertakeStart`).
- `Uint256ToBytes32` ignores the sign of its argument: a negative number is encoded as its absolute value
  (`Uint256ToBytes32Sign`). The signed encoder rejects -2^255, although two's complement has room for it (`SignedWords`).
- `UpdateRole` looks the user up without regard to letter case but deletes the sessions of the lower-case email. A user whose
  stored email has capitals keeps every session (`RoleChangeEndsSessionsIff`, `CapitalsKeepSessions`). Such rows cannot
  come from `CreateUser`, only from before it lowered emails; in every run from an empty table they do not occur
  (`RoleChangeEndsSessions`).
- Reaping can be noticed in one way: a session that has expired is refused as expired while its row is there, and as unknown
  afterwards, and `lib/chainlink/core/web/auth/gql.go:37` tells the two errors apart (`OutcomeDiffersIff`, `ErrorShowsReaping`).
- A chain in memory need not be enabled: `Chain` creates one for any row. This is the only call that does so
  (`OnlyEnabledEndsIff`, `DisabledChainRuns`).
- `FindBridges` with a repeated name fails if that name is not cached and succeeds if it is (`FindManyIff`, `RepeatedName`,
  `RepeatedCachedName`).
- The product of page and size wraps around at 64 bits. The last page then carries a link to a page that cannot be served;
  the walk along the links ends exactly when that product stays in range (`WalkEndsIff`, `WrappingWalk`), which it does for
  every list of less than 2^62 items and every page size below 2^62 (`OrdinaryListsAreInRange`).
- A full mailbox or bounded queue from which an item is taken no longer holds the newest of the items not yet taken, as far as
  there is room: an item that was pushed out does not come back (`NewestNotTakenIff` and `PushedOutStaysOut` of
  `BoundedQueues`, `NewestNotTakenIff` and `DroppedStaysOut` of `MailboxQueue`). What they do hold are the newest of the
  items after the latest one taken (`RunKeepsNewest`, `RunPlacesAll`).

## Model

| member | source | states |
|---|---|---|
| `StartStopOnce.StepKeepsInv` | lib/chainlink/core/utils/utils.go:860-960 | Every atomic step of `StartOnce`, `StopOnce`, `IfStarted`, `IfNotStopped` and the state reads keeps the invariant on lock, state, program counters and event log, moves the state only forward and only adds to the log. |
| `StartStopOnce.RunsAreSafe` | lib/chainlink/core/utils/utils.go:860-960 | In every state of every run of any number of callers: each callback ran at most once, the stop callback only after the start callback returned nil; nothing guarded runs during a teardown; the two "unreachable state" panics are not reached and every result fits the state from then on; the state is Started for the whole of an `IfStarted` body. |
| `StartStopOnce.RunsMoveForward` | lib/chainlink/core/utils/utils.go:863-926 | Between any two states of a run the lifecycle state only moves forward along the order of the seven states, and no event is forgotten. |
| `StartStopOnce.StopWaitsForBegunStart` | lib/chainlink/core/utils/utils.go:890-926 | Once the start callback has begun, no call of `StopOnce` that is made, or still has to look at the state, is ever answered that the start is under way or has not happened: it waits for the start to end. |
| `StartStopOnce.StopRejectedIff` | lib/chainlink/core/utils/utils.go:863-908 | A call of `StopOnce`, from its wait for the lock to its reply, is turned away because of a start under way exactly if some start is waiting for the lock when the call takes its last look at the state. |
| `StartStopOnce.StopCanOvertakeStart` | lib/chainlink/core/utils/utils.go:860-908 | A run in which a start has won its compare-and-swap, a stop that is called after that is turned away, and the start then succeeds. |
| `LifecycleCalls.GuardedIff` | lib/chainlink/core/utils/utils.go:935-960 | One call of `IfStarted` or `IfNotStopped`, from its wait for the read lock to its return: the reply is whether the callback ran in between; the call did hold the read lock; and in every state in which it did, the callback ran exactly if that state is Started, respectively not Stopped. |
| `LifecycleCalls.SteadyGuard` | lib/chainlink/core/utils/utils.go:935-960 | A call throughout which the state is Started (not Stopped) runs its callback and returns true; one throughout which it is not, runs nothing and returns false. |
| `LifecycleCalls.ReplyIsOfOneLook` | lib/chainlink/core/utils/utils.go:860-926 | Every reply of `StartOnce` and `StopOnce` was decided by one look of the same call at the state: the callback ran exactly if the state was Unstarted, respectively Started, and any other reply is the one for the state found, which it names. |
| `LifecycleCalls.AnyoneCanCall` | lib/chainlink/core/utils/utils.go:860-960 | A caller that is in no call can make any of the four calls. |
| `LifecycleCalls.CallbackCanEnd` | lib/chainlink/core/utils/utils.go:872-919 | The callbacks of a start and of a stop can end with an error or without. |
| `ChainSetProtocol.StepKeepsInv` | lib/chainlink/core/chains/chain_set.go:135-337 | Every step of `Chain` (fast path, double check, load, make, start, insert), of the body of `Start` with its rollback and of the body of `Close`, and every step of the guard, keeps the invariant on both locks, the map, the ledger of services, the services that were tried and that failed to close, and the phase. |
| `ChainSetProtocol.StartedIsInMap` | lib/chainlink/core/chains/chain_set.go:152-196 | No orphans: a service that was ever started is in the map under its id whenever `chainsMu` is free, and otherwise at most on its way into it, in the hands of the lock holder. |
| `ChainSetProtocol.OneLivePerChain` | lib/chainlink/core/chains/chain_set.go:156-196 | Racing callers leave at most one running service for each chain id, and no service is started or closed twice. |
| `ChainSetProtocol.OverIsFrozen` | lib/chainlink/core/chains/chain_set.go:156-159 | Once a teardown or a rollback is over, the map and the ledger never change again, whatever callers were already past their first readiness check. |
| `ChainSetProtocol.NothingLivesAfterTeardown` | lib/chainlink/core/chains/chain_set.go:326-337 | Once `Close`'s teardown is over, or the state is Stopped or StopFailed, nothing is running, then and ever after. |
| `ChainSetProtocol.ImmutableStartAllOrNothing` | lib/chainlink/core/chains/chain_set.go:297-337 | An immutable set that is Started has every chain running; one that is StartFailed has closed exactly once what it started, and no later call touches any of them; a mutable set never is StartFailed. |
| `ChainSetProtocol.AnswersAgree` | lib/chainlink/core/chains/chain_set.go:135-182 | All callers of `Chain` that get a service for one id get the same one, whenever they ask. |
| `ChainSetCalls.ChainRefusesIff` | lib/chainlink/core/chains/chain_set.go:141-182 | One call of `Chain` is answered without a service exactly if the state was not Started at one of its two checks, or the chain was missing from the map under the lock and could not be loaded, made or started. |
| `ChainSetCalls.KnownChainIsAnswered` | lib/chainlink/core/chains/chain_set.go:144-150 | A call that has passed its first check and finds the chain in the map when it reads it, or before, is answered with that service, and at no point waits for the write lock or makes anything. |
| `ChainSetCalls.ReadyChainIsAnswered` | lib/chainlink/core/chains/chain_set.go:135-150 | A call during which the state is Started, for a chain that is in the map when it is made, is answered with the service of that chain as soon as it returns. |
| `ChainSetCalls.MissingChainCanBeMade` | lib/chainlink/core/chains/chain_set.go:167-196 | From the load of a missing chain, five steps of the caller can load, make and start a new service, once, put it into the map and answer with it; nothing else changes. |
| `ChainSetCalls.MakingCanFail` | lib/chainlink/core/chains/chain_set.go:168-194 | The load, the making and the start can each fail, and the call then refuses without having put anything into the map. |
| `ChainSetCalls.EachCanBeStarted` | lib/chainlink/core/chains/chain_set.go:302-320 | The body of `Start` can start each chain it still has to do, whatever became of the others, for a mutable set and an immutable one alike. |
| `ChainSetCalls.EachCanFail` | lib/chainlink/core/chains/chain_set.go:302-320 | It can see each of them fail: a mutable set goes on with the others, an immutable one is then to close what it started. |
| `ChainSetCalls.EachCanBeClosed` | lib/chainlink/core/chains/chain_set.go:332-334 | The body of `Close` can close each chain it still has to do, with an error, which it remembers, or without. |
| `ChainSetCalls.AnyoneCanAsk` | lib/chainlink/core/chains/chain_set.go:135-140 | A caller that is in no call can ask for any chain; only the empty id is refused at once. |
| `ChainSetProtocol.StartedMeansTried` | lib/chainlink/core/chains/chain_set.go:297-324 | While the state is Started, the Start of every chain in the map was called, in a mutable set too, where it may have failed. |
| `ChainSetProtocol.CloseTellsErrors` | lib/chainlink/core/chains/chain_set.go:326-337 | A caller that closed the set was told of an error exactly if the Close of some service returned one, and every service in the map was closed once. |
| `ChainSetProtocol.NoDeadlock` | lib/chainlink/core/chains/chain_set.go:135-337 | The guard's lock and `chainsMu` do not block each other: in every reachable state in which a call is under way, some call that is under way can take a step, even if both locks keep readers waiting as soon as a writer waits. |
| `ChainSetTable.ChainSet.NewChainSet` | lib/chainlink/core/chains/chain_set.go:85-113 | Making goes on after a failure; the set is usable exactly if the rows were loaded and no enabled one is broken, and then has in memory exactly the enabled rows, each with the configuration of its row. |
| `ChainSetTable.ChainSet.Immutable` | lib/chainlink/core/chains/chain_set.go:116-133 | An immutable set takes the chains and the rows it is given, unstarted. |
| `ChainSetTable.ChainSet.InitializeChain` | lib/chainlink/core/chains/chain_set.go:185-196 | A chain is in memory, started once and running the configuration of its row, exactly if it can be made and its start succeeds; otherwise the set is as before, and at most a failed start of a new service was called. |
| `ChainSetTable.ChainSet.Chain` | lib/chainlink/core/chains/chain_set.go:135-196 | State and reply are those of the step, for what database and service answer; nil comes with the service that is in the map; and a chain that is in memory is given out without a call on any service. |
| `ChainSetTable.ChainSet.Add` | lib/chainlink/core/chains/chain_set.go:198-215 | State and reply are those of the step; after nil the service in the map is the one that was just started, once. |
| `ChainSetTable.ChainSet.Configure` | lib/chainlink/core/chains/chain_set.go:221-251 | State and reply are those of the step; the chain that goes out of memory is the one that was there, closed once, and the reply is nil exactly if that close was; one that stays is neither started nor closed. |
| `ChainSetTable.ChainSet.Remove` | lib/chainlink/core/chains/chain_set.go:253-272 | State and reply are those of the step; a service is called exactly if the chain was in memory and the row deleted, and then it is closed once, with nil returned exactly if that close succeeds. |
| `ChainSetTable.RunAgrees` | lib/chainlink/core/chains/chain_set.go:184-272 | After any run of calls every chain in memory has a row and runs with the configuration of that row; for an immutable set, if it was given like that. |
| `ChainSetTable.ChainGives` | lib/chainlink/core/chains/chain_set.go:135-196 | Exactly when `Chain` returns nil; then the chain is in memory, as it was or with the configuration of its row; an error changes nothing. |
| `ChainSetTable.AddGives` | lib/chainlink/core/chains/chain_set.go:198-215 | `Add` returns nil exactly if the chain is in neither place and nothing outside fails, and then it is in both, enabled; if only making or starting it fails, the row stays, and any other error changes nothing. |
| `ChainSetTable.ImmutableRefuses` | lib/chainlink/core/chains/chain_set.go:199-255 | An immutable set refuses exactly the calls that change it, without effect. |
| `ChainSetTable.ConfigureNil` | lib/chainlink/core/chains/chain_set.go:221-251 | When `Configure` returns nil, the chain is in memory if and only if `enabled`, with the new configuration; its row is the new one and no other id is touched. |
| `ChainSetTable.ConfigureFailed` | lib/chainlink/core/chains/chain_set.go:229-247 | Exactly when `Configure` reports a failed query, a failed making or start, and a failed close; in the last two cases the row is the new one and the chain out of memory, in the first nothing changed. |
| `ChainSetTable.RemoveLeavesNothing` | lib/chainlink/core/chains/chain_set.go:253-272 | Exactly when `Remove` reports a failed query, which changes nothing, and a failed close; in every other case the chain is neither in the table nor in memory, and no other one is touched. |
| `ChainSetTable.OnlyEnabledEndsIff` | lib/chainlink/core/chains/chain_set.go:135-272 | While the chains in memory are among the enabled rows, a call can end that if and only if it is `Chain`, on a set that is ready, for a row that is disabled. |
| `ChainSetTable.DisabledChainRuns` | lib/chainlink/core/chains/chain_set.go:167-181 | Such a call: one disabled row, no chain in memory, and after `Chain` it runs. |
| `ChainSetTable.ChainSet.Start` | lib/chainlink/core/chains/chain_set.go:297-324 | A mutable set calls the Start of every chain, in order, whatever they return, and is Started; an immutable one starts all of them and is Started, or stops at the first that fails, closes those before it in reverse order and is StartFailed; in any other state than Unstarted nothing happens. |
| `ChainSetTable.ChainSet.Close` | lib/chainlink/core/chains/chain_set.go:326-337 | From Started every chain in memory is closed exactly once and the result and the state say whether all of these succeeded; from any other state, a failed start included, none is closed. |
| `Services.MultiStart.Start` | lib/chainlink/core/services/multi.go:25-43 | All services are started in order, or the first k are, the next one fails, and then these and those of earlier calls are closed in reverse order; which one it is follows from what the services do. |
| `Services.MultiStart.StartOne` | lib/chainlink/core/services/multi.go:35-43 | A service that fails to start makes everything started before, but not itself, be closed in reverse order. |
| `Services.MultiStart.Close` | lib/chainlink/core/services/multi.go:46-52 | Every started service is closed, in reverse order, also after a close that failed, and the result is nil exactly if all of them succeeded. |
| `Services.RollbackMirrors` | lib/chainlink/core/services/multi.go:25-52 | In a failed start of distinct services each one that was started is closed exactly once, starts and closes mirror each other, the one that failed was called once and is not closed, and no other service occurs. |
| `SleeperTask.NoWakeUpLost` | lib/chainlink/core/utils/sleeper_task.go:66-97 | In every reachable state, a wake-up that no beginning of `Work` has followed is a token in the queue, or one the worker has just taken. |
| `SleeperTask.AtMostOneEndBefore` | lib/chainlink/core/utils/sleeper_task.go:76-97 | Such a wake-up sees at most one end of a `Work` call, that of the call in progress. |
| `SleeperTask.WakeUpIsAnswered` | lib/chainlink/core/utils/sleeper_task.go:86-97 | While it waits the worker can move, each of its moves begins a `Work` call or comes closer to it unless it leaves on a stop, and no other step sets it back. |
| `SleeperTask.WorkNeedsWakeUps` | lib/chainlink/core/utils/sleeper_task.go:76-97 | `Work` calls never outnumber wake-ups. |
| `SleeperTask.StopClosesOnce` | lib/chainlink/core/utils/sleeper_task.go:54-64 | The stop channel is never closed twice. |
| `SleeperTask.NoWorkAfterStop` | lib/chainlink/core/utils/sleeper_task.go:54-97 | After a `Stop` has returned nil no `Work` is running and none ever begins. |
| `WakeUps.WakeUpPanicsIff` | lib/chainlink/core/utils/sleeper_task.go:76-79 | A `WakeUp` panics exactly if the state it reads is Stopped; otherwise it goes on to send. |
| `WakeUps.SendLeavesToken` | lib/chainlink/core/utils/sleeper_task.go:66-83 | The send of `WakeUp` and of `WakeUpIfStarted` leaves a token in the queue, whether or not one was there, and counts as one wake-up. |
| `WakeUps.WakeUpDoesNotBlock` | lib/chainlink/core/utils/sleeper_task.go:76-83 | A caller that is in no call can call `WakeUp` in any state, and no state blocks a send. |
| `WakeUps.WakeUpIfStartedSendsIff` | lib/chainlink/core/utils/sleeper_task.go:66-73 | One call of `WakeUpIfStarted` sends exactly if the state is Started while it holds the read lock, which it always does at some time. |
| `WakeUps.StopTellsWorker` | lib/chainlink/core/utils/sleeper_task.go:54-64 | The callback of `Stop` closes the stop channel first and returns nil only if the worker has left. |
| `WakeUps.StopCanEnd` | lib/chainlink/core/utils/sleeper_task.go:55-97 | Once the stop channel is closed a waiting worker can leave, also past a token, and end; then the waiting `Stop` can return nil; it can always give up. |
| `MailboxQueue.Mailbox.Deliver` | lib/chainlink/core/utils/mailbox.go:46-61 | The contents, oldest first, become the newest `capacity` of the old ones and the item; the over-capacity result is true exactly if one delivery was dropped; the notify slot is full. The queue stays what the ledger of all calls so far says, here and in the other three. |
| `MailboxQueue.Mailbox.Retrieve` | lib/chainlink/core/utils/mailbox.go:64-74 | Takes the oldest item, or reports an empty queue. |
| `MailboxQueue.Mailbox.RetrieveAll` | lib/chainlink/core/utils/mailbox.go:76-85 | Returns everything oldest first and leaves the queue empty. |
| `MailboxQueue.Mailbox.RetrieveLatestAndClear` | lib/chainlink/core/utils/mailbox.go:88-97 | Returns the newest item, if any, and leaves the queue empty. |
| `MailboxQueue.SwapEnds` | lib/chainlink/core/utils/mailbox.go:81-83 | The two-index loop reverses the array in place. |
| `MailboxQueue.RunPlacesAll` | lib/chainlink/core/utils/mailbox.go:46-97 | After any run of the four operations the queue is the newest deliveries that fit and come after all that a caller took out; what was retrieved came out in order of delivery; and every delivery is in exactly one of retrieved, dropped, cleared and queued. |
| `MailboxQueue.NewestNotTakenIff` | lib/chainlink/core/utils/mailbox.go:46-97 | After any run, what was dropped and what is queued are all deliveries not taken out, in order, and the queue is the newest of these that fit exactly if it is full or nothing was ever dropped. |
| `MailboxQueue.DroppedStaysOut` | lib/chainlink/core/utils/mailbox.go:46-74 | A run in which it is not: room for two, three deliveries and a retrieval. |
| `MailboxQueue.DeliverOnValues` | lib/chainlink/core/utils/mailbox.go:46-54 | The steps of a run, on delivery indices, are the contract of `Deliver` on the delivered values. |
| `MailboxQueue.TakeOnValues` | lib/chainlink/core/utils/mailbox.go:64-97 | Likewise for what the other three operations hand out and leave. |
| `MailboxNotify.NoNotificationLost` | lib/chainlink/core/utils/mailbox.go:46-74 | With any number of goroutines delivering and of consumers that wait for a notification and then retrieve until the queue is empty: whenever the mutex is free and the queue is not empty, the notify slot is full or a consumer is draining. |
| `MailboxNotify.WaitingMeansCaughtUp` | lib/chainlink/core/utils/mailbox.go:46-74 | When all consumers wait for a token that is not there and no delivery is under way, the consumers got every item that was not dropped, in order of delivery; all of them, if there is no capacity. |
| `MailboxNotify.CallIsAtomic` | lib/chainlink/core/utils/mailbox.go:46-74 | From lock to unlock, whatever the others do, a `Deliver` adds its item to the queue as it was at the lock, and a `Retrieve` takes the oldest item of it, or reports exactly that there is none; the mutex is free afterwards. |
| `MailboxNotify.NotifyLeavesToken` | lib/chainlink/core/utils/mailbox.go:56-59 | A `Deliver` leaves a token in the channel, whether or not one was there. |
| `MailboxNotify.CallGoesOn` | lib/chainlink/core/utils/mailbox.go:46-74 | Who holds the mutex can go on, who does not can get it while it is free, and a consumer waits only for a token. |
| `MailboxNotify.QueueIsServed` | lib/chainlink/core/utils/mailbox.go:46-74 | In every reachable state with items queued, a free mutex and some consumer, some consumer can go on. |
| `BoundedQueues.BoundedQueue.Add` | lib/chainlink/core/utils/utils.go:514-522 | The slice becomes the newest `capacity` items of the old ones and the new one; it stays what the history says it must be. |
| `BoundedQueues.BoundedQueue.Take` | lib/chainlink/core/utils/utils.go:525-534 | Takes the oldest item, or nothing from an empty queue. |
| `BoundedQueues.BoundedQueue.Empty` | lib/chainlink/core/utils/utils.go:537-541 | True exactly if nothing is queued. |
| `BoundedQueues.KeptAfterAdd` | lib/chainlink/core/utils/utils.go:514-522 | Keeping the newest items commutes with adding one to the history. |
| `BoundedQueues.KeptAfterTake` | lib/chainlink/core/utils/utils.go:525-534 | What is taken is the oldest item still kept, and the index of the latest item taken strictly increases. |
| `BoundedQueues.RunKeepsNewest` | lib/chainlink/core/utils/utils.go:514-534 | After any run of `Add` and `Take` the slice is the newest `capacity` of all items ever added, less those up to the latest one taken. |
| `BoundedQueues.NotTakenIs` | lib/chainlink/core/utils/utils.go:514-534 | The items added and not taken are those that were pushed out, followed by the slice. |
| `BoundedQueues.NewestNotTakenIff` | lib/chainlink/core/utils/utils.go:514-534 | The slice is the newest `capacity` of the items not taken exactly if it is full or nothing was ever pushed out. |
| `BoundedQueues.PushedOutStaysOut` | lib/chainlink/core/utils/utils.go:514-534 | A run in which it is not: room for two, three items added and one taken. |
| `BoundedQueues.SortPriorities` | lib/chainlink/core/utils/utils.go:560-574 | The priorities end up ascending, without repetition and with the same members. |
| `BoundedQueues.BoundedPriorityQueue.constructor` | lib/chainlink/core/utils/utils.go:560-574 | One empty queue of its own for each priority, whatever the order of iteration. |
| `BoundedQueues.BoundedPriorityQueue.Add` | lib/chainlink/core/utils/utils.go:577-587 | Only the queue of that priority gets the item; for a priority that does not exist the call panics and nothing changes. |
| `BoundedQueues.BoundedPriorityQueue.Take` | lib/chainlink/core/utils/utils.go:590-602 | Returns the oldest kept item of the smallest priority that has one and leaves the other queues as they were; returns nothing exactly if all queues are empty. |
| `BoundedQueues.BoundedPriorityQueue.Empty` | lib/chainlink/core/utils/utils.go:606-617 | True exactly if every queue is empty. |
| `WeiText.Wei.UnmarshalText` | lib/chainlink/core/assets/wei.go:169-211 | Accepts exactly the texts that denote an integer amount, through the integer path and the fractional path alike, and sets it; otherwise leaves the amount unchanged. |
| `WeiText.TextRoundTrip` | lib/chainlink/core/assets/wei.go:79-211 | Reading `Text(unit)` for any unit, or `String()`, gives exactly the amount back, for every integer. |
| `WeiText.EarlierIsNoSuffix` | lib/chainlink/core/assets/wei.go:171-178 | No unit ends with one that is tried before it, so the order of the suffixes resolves every overlap. |
| `WeiText.StringIsReadable` | lib/chainlink/core/assets/wei.go:131-167 | `String` prints a positive amount as a number of at least 1, below 1000 unless in tether, with no trailing zeros behind the point. |
| `WeiText.UnitBounds` | lib/chainlink/core/assets/wei.go:131-167 | The unit that `String` picks is at most the amount, and more than a thousandth of it unless it is tether. |
| `WeiText.UnitsAre` | lib/chainlink/core/assets/wei.go:17-58 | The units are these eleven with these powers of ten, from 30 for tether down to 0 for wei, and no others. |
| `WeiText.BareIntegerReads` | lib/chainlink/core/assets/wei.go:201-208 | The digits of n, without a unit, are read as n wei and as nothing else. |
| `WeiText.BareReads` | lib/chainlink/core/assets/wei.go:200-210 | Any number without a unit is read as the integer it denotes, if it denotes one. |
| `WeiText.IntegerReads` | lib/chainlink/core/assets/wei.go:169-189 | The digits of n with a unit, with a space between or without, are read as n times its power of ten. |
| `WeiText.FractionReads` | lib/chainlink/core/assets/wei.go:169-199 | Digits with a point, any sign and a unit are read as the exact product, and rejected exactly if that is not a whole number of wei. |
| `WeiText.AmountReads` | lib/chainlink/core/assets/wei.go:169-199 | Every text of a number, exponents included, is read with a unit as that number of the unit. |
| `WeiText.TextIs` | lib/chainlink/core/assets/wei.go:79-118 | `Text(unit)` of an amount that is not zero is its sign, the digits of the quotient by the power of ten of that unit, the digits of the rest without trailing zeros behind a point, a space and that unit. |
| `WeiText.OtherTexts` | lib/chainlink/core/assets/wei.go:79-167 | Zero prints as `0`; an empty or unknown unit means wei; `String` prints negative amounts in ether. |
| `DecimalNumber.ReadPrinted` | lib/chainlink/core/assets/wei.go:109-116 | Parsing a printed fixed-point number gives a decimal of the same value, although trailing zeros were trimmed. |
| `DecimalNumber.WholeIs` | lib/chainlink/core/assets/wei.go:181-184 | Digits with an optional sign are read as that integer. |
| `DecimalNumber.PointedIs` | lib/chainlink/core/assets/wei.go:181-184 | Digits with a point anywhere are read as the number of all digits with as many places as stand behind the point. |
| `DecimalNumber.ExponentShifts` | lib/chainlink/core/assets/wei.go:181-184 | An exponent behind a number, with e or E, shifts it by that many places, and makes it be rejected exactly if it or the resulting exponent leaves 32 bits. |
| `DecimalNumber.NumberChars` | lib/chainlink/core/assets/wei.go:181-184 | A text with any character but digits, signs, point and exponent mark is rejected. |
| `DecimalNumber.PrintedIs` | lib/chainlink/core/assets/wei.go:109-118 | What is printed: the sign, the digits of the quotient and those of the rest, without trailing zeros. |
| `DecimalNumber.IntegerIff` | lib/chainlink/core/assets/wei.go:186-197 | A decimal denotes an integer n exactly if it passes the integer test and its integer part is n, for either sign. |
| `DecimalNumber.ScaleDenotes` | lib/chainlink/core/assets/wei.go:186-197 | Scaling a decimal by a power of ten scales the number it denotes. |
| `CurrencyText.Link.UnmarshalText` | lib/chainlink/core/assets/currencies.go:130-155 | Accepts exactly the texts that denote an amount of juels, through the link, juels and bare forms, and panics exactly on a number of LINK whose scaled exponent leaves 32 bits. |
| `CurrencyText.LinkRoundTrip` | lib/chainlink/core/assets/currencies.go:102-155 | Reading a printed LINK amount gives it back, on both sides of the formatting threshold and for negative amounts. |
| `CurrencyText.LinkForm` | lib/chainlink/core/assets/currencies.go:99-107 | From 10^12 juels on an amount is printed in LINK, as quotient and rest by 10^18, and below that, negative ones included, as its digits. |
| `CurrencyText.JuelsFormsRead` | lib/chainlink/core/assets/currencies.go:148-155 | The digits of n, bare, or with juels behind them, with a space or without, are read as n. |
| `CurrencyText.LinkFormsRead` | lib/chainlink/core/assets/currencies.go:133-147 | Any number with link behind it, with a space or without, is read as 10^18 times that many juels, if that is an integer. |
| `CurrencyText.EthRoundTrip` | lib/chainlink/core/assets/currencies.go:215-232 | An ETH amount printed with all its places is read back exactly by `NewEthValueS`, with its sign. |
| `CurrencyText.EthForm` | lib/chainlink/core/assets/currencies.go:17-29 | An ETH amount is printed with exactly 18 places, which are the rest by 10^18. |
| `CurrencyText.EthReads` | lib/chainlink/core/assets/currencies.go:215-222 | A number of ETH is read as 10^18 times as many wei, and what is below one wei is dropped towards zero, for either sign. |
| `EvmWord.SignedWords` | lib/chainlink/core/utils/ethabi.go:207-219 | The signed encoder accepts exactly the integers strictly between -2^255 and 2^255, gives 32 bytes, and their two's-complement value is the input. |
| `EvmWord.Uint128Words` | lib/chainlink/core/utils/ethabi.go:195-205 | Accepts exactly the numbers below 2^128, and the word has the value encoded. |
| `EvmWord.UnsignedWords` | lib/chainlink/core/utils/ethabi.go:221-230 | This encoder and `Uint256ToBytes` accept exactly the numbers below 2^256, and the word has the value encoded; `Uint256ToBytes` panics exactly on negative numbers. |
| `EvmWord.WordErrors` | lib/chainlink/core/utils/ethabi.go:207-230 | For 256 bits a negative number is refused with another error than one that is too large; the signed encoder knows only the latter. |
| `EvmWord.Uint128Refuses` | lib/chainlink/core/utils/ethabi.go:195-205 | For 128 bits too large is reported before negative. |
| `EvmWord.EncodersAgree` | lib/chainlink/core/utils/ethabi.go:180-230 | Where the ranges of two encoders overlap they give the same word. |
| `EvmWord.Uint256ToBytes32Sign` | lib/chainlink/core/utils/utils.go:397-402 | Encodes the absolute value, so it encodes its argument exactly if that is not negative. |
| `EvmWord.EVMWordUint64` | lib/chainlink/core/utils/ethabi.go:181-185 | The bytes written in place are the 32-byte word of the number. |
| `EvmWord.EVMWordUint32` | lib/chainlink/core/utils/ethabi.go:188-192 | The bytes written in place are the 32-byte word of the number. |
| `EvmWord.FillWord` | lib/chainlink/core/utils/ethabi.go:181-192 | Both fill a fresh array of 32 bytes from its end, and leave zeros in front. |
| `EvmWord.WordsKeepOrder` | lib/chainlink/core/utils/ethabi.go:221-230 | Words compare byte by byte as the numbers they stand for. |
| `EvmWord.EVMBytesToUint64` | lib/chainlink/core/utils/utils.go:797-803 | The shift-and-add loop over a buffer of any length returns its value modulo 2^64. |
| `EvmWord.EncodedSize` | lib/chainlink/core/utils/ethabi.go:62-77 | An encoded byte string is a whole number of words, with the least padding, all zeros. |
| `EvmWord.DecodeEncode` | lib/chainlink/core/utils/ethabi.go:71-77 | A reader of the length word recovers the input and whatever follows its encoding. |
| `EvmWord.PrefixFree` | lib/chainlink/core/utils/ethabi.go:71-77 | No encoding begins another one. |
| `NormalizedJson.OrderedKeys` | lib/chainlink/core/utils/json_normalization.go:86-93 | The keys come out in the one ascending order, whatever the order of map iteration: of two, the earlier one is a proper beginning of the later one or has the smaller code point where they first differ. |
| `NormalizedJson.SortedUnique` | lib/chainlink/core/utils/json_normalization.go:86-93 | There is only one strictly ascending list of a set of keys. |
| `NormalizedJson.SortStrings` | lib/chainlink/core/utils/json_normalization.go:86-93 | Sorting keeps the keys and puts them in that ascending order. |
| `NormalizedJson.ObjectText` | lib/chainlink/core/utils/json_normalization.go:71-123 | The text of an object is, for the one ascending list of its keys, the quoted keys with a colon and the text of their values, joined by commas, in braces. |
| `NormalizedJson.ArrayText` | lib/chainlink/core/utils/json_normalization.go:125-149 | The text of an array is the texts of its items, joined by commas, in brackets. |
| `NormalizedJson.EscapeIs` | lib/chainlink/core/utils/json_normalization.go:151-158 | Which code points a string writes as they are, which with a backslash and one letter, and which as their number in four lower-case hexadecimal digits. |
| `NormalizedJson.Marshal` | lib/chainlink/core/utils/json_normalization.go:52-69 | Appends the text of the tree, a function of the tree alone, to what the writer holds, and reports an error exactly if the writer has no room for all of it; then the writer holds the beginning that it had room for. |
| `NormalizedJson.MarshalObject` | lib/chainlink/core/utils/json_normalization.go:71-84 | Appends the braces and the members in key order, or stops at a write error. |
| `NormalizedJson.MarshalMapOrderedKeys` | lib/chainlink/core/utils/json_normalization.go:95-123 | The loop writes every member once, in order, with a comma between members, or stops at a write error. |
| `NormalizedJson.MarshalArray` | lib/chainlink/core/utils/json_normalization.go:125-149 | The loop writes every item once, in order, with a comma between items, or stops at a write error. |
| `NormalizedJson.ReadText` | lib/chainlink/core/utils/json_normalization.go:52-158 | A JSON reader (sections 4, 5 and 7 of RFC 8259) recovers every tree from its text, whatever follows the text. |
| `NormalizedJson.TextInjective` | lib/chainlink/core/utils/json_normalization.go:52-158 | Two trees have the same text exactly if they are the same, up to what number tokens stand for. |
| `Sessions.Store.AuthorizedUserWithSession` | lib/chainlink/core/sessions/orm.go:94-130 | The statements of the transaction, in order, have the effect and the outcome of `AuthorizeStep`. |
| `Sessions.Store.UpdateRole` | lib/chainlink/core/sessions/orm.go:279-315 | Likewise for `UpdateRoleStep`, errors included. |
| `Sessions.Store.CreateSession` | lib/chainlink/core/sessions/orm.go:167-253 | Look-up, email and password checks, second factor with each of its outcomes, and insert, without another call in between; the session is filed under the stored email of the user. |
| `Sessions.Store.InsertSession` | lib/chainlink/core/sessions/orm.go:238-242 | The insert alone, as it acts when other calls came after the look-up: refused for an id that is there or an email that no user has. |
| `Sessions.Store.CreateUser` | lib/chainlink/core/sessions/orm.go:273-276 | The user is stored under the lower-case email, unless one is there that differs at most in case. |
| `Sessions.Store.DeleteUser` | lib/chainlink/core/sessions/orm.go:133-141 | Deletes the user with exactly that email, and by cascade all sessions that refer to it. |
| `Sessions.EndedSessionIsOut` | lib/chainlink/core/sessions/orm.go:144-147 | After `DeleteUserSession` that session is refused, and every other one is authorized as before. |
| `Sessions.OnlyCurrentStays` | lib/chainlink/core/sessions/orm.go:267-270 | After `ClearNonCurrentSessions` the given session is authorized as before, and every other one is refused. |
| `Sessions.ReapSparesLive` | lib/chainlink/core/sessions/reaper.go:36-49 | After the reaper's `Work` a session is stored exactly if it was and was last used at or after the threshold; a reaper that waits as long as a session lasts changes for no session what its use finds, then or later, but for the error of an expired one. |
| `Sessions.ReachableEmails` | lib/chainlink/core/sessions/orm.go:132-276 | In every reachable state all stored emails are in lower case and every session belongs to a stored user. |
| `Sessions.LowerLetters` | lib/chainlink/core/sessions/orm.go:275 | Lowering maps each of the 26 capitals to its small letter and nothing else. |
| `Sessions.LoginAuthorizes` | lib/chainlink/core/sessions/orm.go:94-253 | A login succeeds exactly if the user exists, in any letter case of the email, and passes the checks; its session is authorized for that user up to the session duration after the login. |
| `Sessions.LoginRefused` | lib/chainlink/core/sessions/orm.go:167-253 | Which refusal a login gets: unknown user, then password, and the second factor only behind a right password. |
| `Sessions.InsertIff` | lib/chainlink/core/sessions/orm.go:238-242 | The insert succeeds exactly if the id is new and a user is stored under exactly that email, and otherwise changes nothing. |
| `Sessions.CreatedUserIsStored` | lib/chainlink/core/sessions/orm.go:273-276 | `CreateUser` succeeds exactly if no stored email differs at most in letter case; the user then has the given password hash and role, can log in in any letter case, and nothing else changed. |
| `Sessions.UseExtends` | lib/chainlink/core/sessions/orm.go:94-130 | Each successful use lets the session last for the whole duration again, for the same user, and touches nothing else. |
| `Sessions.DeletedUserIsOut` | lib/chainlink/core/sessions/orm.go:94-141 | After a user is deleted no session authorizes that user, and the sessions of the others are as before. |
| `Sessions.DeletedUserCannotLogIn` | lib/chainlink/core/sessions/orm.go:133-141 | After `DeleteUser` the user with exactly that email is gone and no letter case of it can log in; all other users stay, and a call that matches no user changes nothing. |
| `Sessions.RoleChange` | lib/chainlink/core/sessions/orm.go:279-315 | A role change succeeds exactly if the user exists and the role is one of the four names; then only that user's role and sessions change, and otherwise nothing does. |
| `Sessions.RoleByName` | lib/chainlink/core/sessions/user.go:87-111 | The name of each role gives a stored user that role, in the reply and in the table; every other text is refused without effect, the empty one with its own error. |
| `Sessions.NamesDiffer` | lib/chainlink/core/sessions/user.go:30-35 | The four roles have four different names. |
| `Sessions.NoUserNoRole` | lib/chainlink/core/sessions/orm.go:282-297 | An unknown user is reported before a bad role is. |
| `Sessions.RoleChangeEndsSessionsIff` | lib/chainlink/core/sessions/orm.go:288-309 | A successful role change ends all sessions of its user exactly if the stored email is in lower case or there were none. |
| `Sessions.CapitalsKeepSessions` | lib/chainlink/core/sessions/orm.go:288-309 | Such a user: stored as "A", it gets the new role and keeps a session that is still good. |
| `Sessions.RoleChangeEndsSessions` | lib/chainlink/core/sessions/orm.go:279-315 | In every reachable state, a successful role change with any letter case leaves no session of that user and every session of the others. |
| `Sessions.ReapingIsUnobservable` | lib/chainlink/core/sessions/reaper.go:36-49 | With one monotone clock, fresh session ids and a reaper that waits at least as long as a session lasts, every call of every run has the same outcome as in the run without the reaper, but that a session that expired may be refused as unknown and not as expired. |
| `Sessions.OutcomeDiffersIff` | lib/chainlink/core/sessions/orm.go:106-112 | The outcome differs exactly if the call asks for a session that is stored only in the run without the reaper. |
| `Sessions.ErrorShowsReaping` | lib/chainlink/core/sessions/orm.go:106-112 | Such a run: login at 0, reaping and use at 6, of a session that lasts for 5. |
| `Sessions.ReapingIsUnobservableIff` | lib/chainlink/core/sessions/reaper.go:36-49 | For a waiting time that is not negative the condition on the reaper is exact: with a shorter one some session is refused that would have been accepted. |
| `Bridges.Orm.FindBridge` | lib/chainlink/core/bridges/orm.go:47-58 | State and reply are those of the step: cache first, then the table, whose row is cached. |
| `Bridges.Orm.FindBridges` | lib/chainlink/core/bridges/orm.go:63-100 | The loops and the query, whose rows come in any order, have an effect and an outcome that `FindManyStep` allows. |
| `Bridges.Orm.CreateBridgeType` | lib/chainlink/core/bridges/orm.go:139-155 | Table and cache get the row, or neither changes. |
| `Bridges.Orm.UpdateBridgeType` | lib/chainlink/core/bridges/orm.go:158-166 | Table and cache get the same new row, or neither changes. |
| `Bridges.Orm.DeleteBridgeType` | lib/chainlink/core/bridges/orm.go:103-119 | Row and cached entry go together, the latter even when there was no row. |
| `Bridges.CreatedIsFound` | lib/chainlink/core/bridges/orm.go:139-155 | A bridge is created exactly if the database answers and has none of that name, and is then found, also while the database does not answer. |
| `Bridges.UpdatedIsFound` | lib/chainlink/core/bridges/orm.go:158-166 | An update gives the bridge the new URL, confirmations and payment, keeps its name and secrets, and is what is found from then on; without a row, or an answer, nothing changes. |
| `Bridges.DeletedIsGone` | lib/chainlink/core/bridges/orm.go:103-119 | After a delete that the database answers the bridge is found neither in the table nor in the cache, and no other one is touched. |
| `Bridges.RunCoherent` | lib/chainlink/core/bridges/orm.go:47-166 | After any run of calls every cached entry equals its row. |
| `Bridges.FindIsLookup` | lib/chainlink/core/bridges/orm.go:47-58 | After any run a `FindBridge` that the database answers gives what a look-up in the table would; one that it does not answer succeeds exactly if the bridge is cached; and after a success it is. |
| `Bridges.FindManyIff` | lib/chainlink/core/bridges/orm.go:63-100 | When the database answers, `FindBridges` succeeds exactly if a name is given, all names have rows and the uncached ones do not repeat, and then returns one row for each name given. |
| `Bridges.FoundAreCached` | lib/chainlink/core/bridges/orm.go:63-100 | After a call that the database answers, exactly the asked names that have rows are cached in addition, also when the call fails. |
| `Bridges.FindManyFails` | lib/chainlink/core/bridges/orm.go:63-100 | Which error a failing call gives; without the database it succeeds exactly if all names are cached. |
| `Bridges.RepeatedName` | lib/chainlink/core/bridges/orm.go:63-100 | A call with one name given twice fails when the name is not cached, although the row exists. |
| `Bridges.RepeatedCachedName` | lib/chainlink/core/bridges/orm.go:63-100 | The same call succeeds when the name is cached. |
| `Bridges.RepeatedNameFails` | lib/chainlink/core/bridges/orm.go:83-98 | The failing call exists, and leaves the name cached. |
| `Bridges.FindManyIsLookup` | lib/chainlink/core/bridges/orm.go:63-100 | After any run, for distinct names, it succeeds exactly if all rows exist, and returns a permutation of them. |
| `Pagination.ParsedRequest` | lib/chainlink/core/web/api.go:32-51 | A size or page that is left out has its default, one that is not an int of at least 1 is rejected, the size first; the offset is (page - 1) * size when that fits an int, and otherwise differs from it by a multiple of 2^64. |
| `Pagination.NumbersAsk` | lib/chainlink/core/web/api.go:32-51 | Printed numbers are taken as these numbers, from 1 up to the largest int, and rejected otherwise, the size first. |
| `Pagination.DefaultsAsk` | lib/chainlink/core/web/api.go:33-47 | Without parameters it is the first page of 25; what is not a number is rejected. |
| `Pagination.Document.Fill` | lib/chainlink/core/web/api.go:94-105 | The count, and the links that `LinksOf` says. |
| `Pagination.PageLinks` | lib/chainlink/core/web/api.go:98-105 | On every page of a list: there is a next link exactly if there is a next page, or the product wrapped around; there is a previous link exactly if there is a previous page; and they name these pages. |
| `Pagination.PageData` | lib/chainlink/core/chains/orm_immutable.go:93-105 | The request for page p of a list finds the p-th part of it. |
| `Pagination.SliceIs` | lib/chainlink/core/chains/orm_immutable.go:93-105 | For every offset and limit: the items from the offset on, at most as many as the limit if there is one, none past the end, and a panic exactly for a negative offset. |
| `Pagination.PastTheEnd` | lib/chainlink/core/web/api.go:94-105 | A page after the last one is served empty, with the count, no link forward, and a link back exactly if the list does not fit one page. |
| `Pagination.FollowingEnumerates` | lib/chainlink/core/web/api.go:32-107 | Following next from the first page visits at most n = max(1, ceil(count / size)) pages; before the n-th there always is a next link; n pages, one after the other, are the whole list; and the n-th has no next link exactly if its product stays in range. |
| `Pagination.PagesFollow` | lib/chainlink/core/web/api.go:53-67 | That walk exists: each page's next link, parsed again, leads to the page after it. |
| `Pagination.PrevUndoesNext` | lib/chainlink/core/web/api.go:61-67 | From every page but the first, prev leads back to the page that next came from. |
| `Pagination.WalkEndsIff` | lib/chainlink/core/web/api.go:49-107 | The walk comes to an end exactly if the list fits one page or the product of the last page and the size stays within an int. |
| `Pagination.WrappingWalk` | lib/chainlink/core/web/api.go:49-107 | A list and a size for which it does not: two pages, the second with a link to a third that cannot be served. |

## Left out

- `NormalizedJSON`'s Unicode normalisation of the output and its float formatting: number text is a token, and nothing is claimed behind the NFC stage, which may reorder or merge keys.
- SQL, transactions and drivers: each query or transaction is one atomic step that may fail without effect. What a failed `CreateBridgeType` or `UpdateBridgeType` leaves in the argument is not modelled, and neither are timestamps.
- Cryptography and randomness: the outcomes of the password and second-factor checks are given, session ids are fresh values.
- Letter case beyond ASCII.
- Timers and deadlines: the time limit of `Stop` is an arbitrary failure of its callback; contexts are not modelled.
- The decimal library is modelled as exact value and exponent; memory limits for huge exponents are not. `Link.UnmarshalText` models the panic of an exponent that overflows.
- `MailboxQueue.Mailbox.Deliver`: one call at a time; interleavings with consumers are in `MailboxNotify`, where a call under the mutex is cut at locking, queue change, notification and unlocking.
- Bridge calls run one at a time; interleavings of the table step of one call with the cache step of another can leave a stale entry, so nothing is claimed for them.
- `Add` and `Configure` of the chain set under concurrency with `Close`: they do not check readiness, so a chain added after `Close` is not closed by it.
- `ChainSetTable.ChainSet.NewChainSet`: the half-filled set that the source returns beside the error of a failed `NewChain` is not modelled, because its callers discard it.
- Chain ids are taken in their formatted form, which is one-to-one for the ids in use.
- Readers-writer locks are modelled without fairness: nothing is claimed about who gets a lock next.
- `BoundedQueue` with a negative capacity, whose `Add` panics; `Full`; listing of sessions, in which reaping shows.
- `url.URL` encoding: a link is its size and page parameters. The negative offset of a wrapped product is modelled, as a panic of the slice.
- Node management, logging, metrics, configuration, HTTP and command-line layers.
