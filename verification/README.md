# Actor mesh: a verified model

A Dafny model of the parts of the actor mesh whose correctness depends on order and on who
else is running: the actor runtime (mailbox, queue, process, registry), the Ask and Forward
protocol across nodes, the ownership of logical actors, the wire session down to its bytes,
the transport's peer table, and snowflake ids. `dafny verify dfyconfig.toml` checks it all.

## How it is modelled

Code that changes objects step by step is a class with the same fields, loops and branches,
each method proved against a function of the old state. Where several goroutines meet, the
same operations are taken apart into their atomic steps (one atomic instruction, one section
under a lock, one script, one frame), and a run is any schedule of them: an action that is
not enabled does nothing, so a statement about `Run(.., schedule)` for every schedule is one
about every interleaving. The classes and the steps share their specification functions.

What never goes wrong is stated as invariants and laws over all runs. What does happen is
stated twice: lemmas named `..Decides` say exactly when a step succeeds and what it leaves,
and lemmas such as `PushAlone`, `AskCanComplete`, `SendCanArrive`, `CanBeHosted` and
`ShutdownEnds` say that from every reachable state the operation can, or must, come to its
end.

| module | what it holds |
|---|---|
| `Mpsc`, `Mailbox`, `MailboxProgress`, `MailboxCalls` | the linked queue with its two-step push; the lock-free scheduler and capacity counter; that its workers come to an end; the mailbox's calls on that queue |
| `Registry`, `Lifecycle`, `Shutdown`, `ProcessQueue`, `ProcessCalls` | the process table; spawn, push, stop, destroy and shutdown; that a shutdown ends; the same on the mailbox's atomic steps; one message and its answers |
| `Refs`, `Requests`, `AskForward` | request references; the table of pending requests; request references travelling through forwards on several nodes |
| `Directory`, `DirectoryCalls`, `Activation`, `RouterCalls` | ownership scripts, caches and update events; the directory's calls; activation of one actor; owner resolution |
| `Bytes`, `Bits`, `Config`, `Buffer`, `FrameCodec`, `ReadLoop`, `Stream`, `Capacity` | size limits; the receive buffer; frames; the chunked read loop; streams of frames; how large the buffer must be |
| `Pipeline`, `Cipher`, `Session`, `Sending`, `SessionBytes` | body transforms; the byte cipher; the two-party handshake and session; what sends and receives on it come to; the session over bytes |
| `PeerTable` | peers under concurrent dials, Hello messages and closes |
| `Snowflake` | unique ids |
| `Wrappers`, `Counting`, `Maps` | result shapes; sums over participants; sizes of maps |

Parameters stand for what is outside: checksums, compression, key agreement and key
derivation are functions with only the laws needed (unpacking undoes packing; both ends
derive the same key, as in section 6.1 of RFC 7748); clock readings, network losses, lease
expiry, timers and handler results are inputs of the actions.

## What the code does not do

Some expected properties fail. Each is stated with the exact condition under which it holds,
for every run or input, and with a run or input in which it fails.

- A closed connection stays in the peer table as the entry of the id it registered under
  exactly when its close callback had run by the registration, or looked under another id
  or none, and no dial to the id failed since (`PeerTable.OutlivesCloseExactly`; for a
  connection that takes no other id and is not being dialed, exactly when the callback looked
  before the registration: `OutlivesCloseWithoutRenaming`). `Connect` to the id then returns
  without dialing until another connection brings a Hello with it (`StuckStays`). Two runs
  get there: the callback between the two steps of the Hello (`HelloAfterClose`), and a
  second Hello with another id, bound and turned down, before the close (`RenamedBeforeClose`).
- There is one live peer an id in every run exactly when no connection takes another id with
  a second Hello (`PeerTable.OneLiveExactly`).
- A logical actor has one host in every run exactly when the deployment gives five
  guarantees (`Activation.SingleActivation`). Three are not obvious: no two live processes
  have one node id, and no acquire names an old instance of a restarted node, since the
  script compares node ids only; and no delete whose call failed runs later, since it then
  deletes the owner of the next activation.
- A mailbox handles what is pushed, within a bound on its workers' steps, exactly when the
  throughput of its dispatcher is positive; with any other, nothing is ever handled
  (`MailboxProgress.EverythingHandled`, `NothingHandled`).
- An owner key is another actor's epoch key exactly when its actor key is the other's with
  `.epoch` added (`Directory.KeysCollide`, `CollidingKeys`).
- A cache can take an owner older than an update it has already applied exactly when a call
  whose script ran earlier is still waiting to write the cache (`Directory.FreshAfterEvent`,
  `StaleCallExists`).
- `sendAsk` can return an error and still have its callback run exactly when its withdrawal
  finds the request gone (`Requests.WithdrawalDecides`, `ErrorAndCallback`,
  `FailedSendMayAlsoComplete`).
- A compressor can refuse what it packed itself exactly when it has a size limit
  (`Pipeline.GzipExact`).
- `snowflake.New` can accept a start time that puts the present one millisecond out of range,
  because it rounds the difference and not the two times (`Snowflake.NewInRange`,
  `NewOutOfRange`), or any amount when the start is 2^63 nanoseconds old (`NewSaturates`).

## Model

| member | source | states |
|---|---|---|
| `Mpsc.Queue.constructor` | pkg/mpsc/mpsc.go:17-23 | a new queue is empty, with one stub node as head and tail |
| `Mpsc.Queue.SwapHead` | pkg/mpsc/mpsc.go:25-28 | the first half of a push appends the value in swap order, not yet linked |
| `Mpsc.Queue.Link` | pkg/mpsc/mpsc.go:29 | the second half links exactly that node and changes no other |
| `Mpsc.Queue.Push` | pkg/mpsc/mpsc.go:25-30 | an undisturbed push adds a linked value at the end |
| `Mpsc.Queue.Pop` | pkg/mpsc/mpsc.go:32-42 | takes the oldest value, or nothing when the queue is empty or the oldest push has not linked yet |
| `Mpsc.Queue.Empty` | pkg/mpsc/mpsc.go:44-48 | true exactly when a pop would return nothing |
| `Mpsc.Interleave` | pkg/mpsc/mpsc.go:25-42 | any interleaving of half pushes and pops on the linked nodes: what came out, then what is left, is what went in, in swap order |
| `Mailbox.SwapRefines` | pkg/mpsc/mpsc.go:28 | the scheduler's swap step does to its queue what the linked queue's swap does |
| `Mailbox.LinkRefines` | pkg/mpsc/mpsc.go:29 | the scheduler's link step does what the linked queue's link does |
| `Mailbox.PopRefines` | pkg/mpsc/mpsc.go:32-42 | the scheduler's pop step returns and leaves what the linked queue's pop does |
| `Mailbox.InvKept` | actor/mailbox.go:50-119 | every atomic step of any producer or worker keeps the counter, ownership, order and link invariants |
| `Mailbox.InvRun` | actor/mailbox.go:50-119 | the invariants hold in every run with any number of producers |
| `Mailbox.NoLostWakeup` | actor/mailbox.go:50-119 | whenever no producer or worker step is pending, everything pushed has been handled, the counter is 0 and the mailbox idle |
| `Mailbox.SingleConsumer` | actor/mailbox.go:75-92 | at most one worker is between a won compare-and-swap and the store of idle, so pops never race |
| `Mailbox.HandledInOrder` | actor/mailbox.go:96-119 | messages are handled in swap order without loss or repetition, each producer's in its own order |
| `Mailbox.CapacityHolds` | actor/mailbox.go:50-71 | user messages reserved, queued or popped but uncounted never exceed the capacity, although system messages share the counter |
| `Mailbox.PopFindsNothing` | actor/mailbox.go:108-111 | a pop that returns nothing means an empty queue or a push still waiting to link |
| `Mailbox.AddDecides` | actor/mailbox.go:54-57 | in every state a push rolls back exactly when its message is a user message and the counter it read was at capacity or above; otherwise the message is on its way into the queue |
| `Mailbox.OthersLeaveIt` | actor/mailbox.go:50-71 | nobody else moves a producer, so what its first step decided holds until its own next step |
| `Mailbox.PushAlone` | actor/mailbox.go:50-71 | in every reachable state an undisturbed push ends last in the queue, counted, with the mailbox running, exactly when it is a system message or the counter was below capacity, and otherwise with counter, queue and workers as before |
| `Mailbox.HandlesOldest` | actor/mailbox.go:107-117 | an undisturbed worker handles the oldest message, and ends its run exactly if the handler says that the process has closed |
| `Mailbox.YieldDecides` | actor/mailbox.go:102-106 | a worker yields exactly after throughput messages, and counts from 0 again |
| `Mailbox.RunEnds` | actor/mailbox.go:80-92 | after a run the mailbox is idle; the worker returns if the counter is at 0, and otherwise wins an idle mailbox again |
| `Mailbox.LosesRecast` | actor/mailbox.go:86-90 | a worker that finds the mailbox taken again returns |
| `MailboxProgress.Progresses` | actor/mailbox.go:80-119 | once no push is under way, each step of any worker leaves strictly less to do |
| `MailboxProgress.EverythingHandled` | actor/mailbox.go:80-119 | with a positive throughput and no push under way, however the workers are scheduled they take at most 7 steps a queued message and 9 a worker; when none has a step left, everything pushed has been handled in order and the mailbox is idle |
| `MailboxProgress.NothingHandled` | actor/mailbox.go:97-106 | with a throughput of 0 or less no run ever pops or handles a message |
| `MailboxCalls.Box.constructor` | actor/mailbox.go:34-43 | a new mailbox is empty and idle; a capacity of 0 or less becomes 1024 |
| `MailboxCalls.Box.PushUser` | actor/mailbox.go:50-61 | refused exactly at capacity with the counter restored; otherwise queued last, starting a worker only if idle |
| `MailboxCalls.Box.PushSystem` | actor/mailbox.go:62-71 | never refused, queued last, starting a worker only if idle |
| `MailboxCalls.Box.CompareAndRun` | actor/mailbox.go:75-79 | wins exactly when the mailbox was idle |
| `MailboxCalls.Box.Drain` | actor/mailbox.go:96-119 | one run handles a beginning of the queue in order, at least one message if there was one, and ends although yielding restarts its count |
| `MailboxCalls.Box.Round` | actor/mailbox.go:80-92 | one turn leaves the mailbox running exactly when messages are left |
| `MailboxCalls.Box.ProcessMessages` | actor/mailbox.go:80-92 | a worker handles all that is queued, in order, and leaves the mailbox idle |
| `Requests.RequestManager.constructor` | actor/request_manager.go:34-49 | an open empty table; a limit of 0 or less becomes 65536 |
| `Requests.RequestManager.Add` | actor/request_manager.go:59-79 | refused when closed or full without any change, otherwise the next id, wrapping at 64 bits, is pending for the target |
| `Requests.RequestManager.Remove` | actor/request_manager.go:90-102 | takes exactly that id out and says whether it was pending |
| `Requests.RequestManager.Complete` | actor/request_manager.go:81-88 | runs the callback once exactly when the id was pending |
| `Requests.RequestManager.Retarget` | actor/request_manager.go:104-113 | changes the target of a pending id and nothing else; an empty target is ignored |
| `Requests.RequestManager.Stop` | actor/request_manager.go:120-143 | closes the table once and answers each pending id exactly once with "closed" |
| `Requests.NextIdIsNew` | actor/request_manager.go:69 | before 2^64 ids were issued the next one differs from all of them, from any random start |
| `Requests.InvRun` | actor/request_manager.go:59-143 | in every interleaving that issues fewer than 2^64 ids, each issued id is pending or has exactly one fate, with its callback owed, run or withdrawn |
| `Requests.Conservation` | actor/request_manager.go:59-143 | every added id is pending or ended in one of replied, timed out, closed, withdrawn; its callback ran once if due and not owed, else never; pending never exceeds the maximum |
| `Requests.FateIsFinal` | actor/request_manager.go:59-143 | whatever happens later, a fate never changes, a callback never runs again, and nothing is added once closed |
| `Requests.AskDecides` | actor/request_manager.go:59-79 | in every state an Ask is refused without a trace exactly by a closed or full table; otherwise the next id is handed out and pending for its target |
| `Requests.LeavesOnce` | actor/request_manager.go:81-143 | a pending id leaves by a reply, expiry, withdrawal or stop with that fate; its callback is then owed unless withdrawn, and can run once |
| `Requests.RetargetDecides` | actor/request_manager.go:104-113 | a retarget changes where the reply is awaited from, and nothing else |
| `Requests.WithdrawalDecides` | actor/sender.go:105-108 | in every run and continuation, a failed send's callback has run or is owed if and only if the withdrawal found nothing; found means it never runs, not found means the table did not change |
| `Requests.ErrorAndCallback` | actor/request_manager.go:81-102 | an Ask that returned an error can still have its callback run if and only if its id was no longer pending at the withdrawal |
| `Requests.FailedSendMayAlsoComplete` | actor/sender.go:86-110 | a run in which it happens: the timer wins, the send fails, its withdrawal finds nothing, the callback runs |
| `AskForward.InvRun` | actor/sender.go:61-134 | in every run each reference is in at most one place and is the one its Ask was given |
| `AskForward.OneTokenPerAsk` | actor/process.go:124-164 | through any chain of local and remote forwards, live copies of a request plus successful responds, errors and rejects number at most one per Ask |
| `AskForward.NoTwoHolders` | actor/process.go:166-191 | two actors never handle the same unanswered request at once |
| `AskForward.RepliesReachTheirOwnAsk` | actor/remote.go:178-200 | a reply completes the request it was made for and no other, and no request is completed twice |
| `AskForward.ForwardKeepsOrigin` | actor/process.go:124-137 | the message an actor handles carries the reference and the sender of the original Ask |
| `AskForward.SendDecides` | actor/sender.go:61-84 | a send succeeds exactly for a whole reference that the environment lets through; the envelope is then last in the queue of a target on the same node and otherwise last on the net; one that fails changes nothing |
| `AskForward.TellDecides` | actor/sender.go:61-84 | a tell is a send without a request |
| `AskForward.AskDecides` | actor/sender.go:86-110 | an Ask is pending under its reference when it is sent, and no longer if the send fails |
| `AskForward.RequestArrives` | actor/remote.go:157-176 | a readable request that is pushed is last in its actor's queue; one that is not but can be rejected puts exactly one response for its origin on the net; a malformed one is dropped |
| `AskForward.ResponseArrives` | actor/remote.go:178-200 | a readable response takes its request out of the table of its node and completes it, exactly if it is still pending there |
| `AskForward.ForwardDecides` | actor/process.go:124-137 | a forward passes the current envelope on unchanged exactly if nothing went out yet and the send succeeds, and then counts as the answer |
| `AskForward.RespondDecides` | actor/process.go:139-164 | an answer goes out exactly if none did and the request is still pending on this node, or can be sent to its own |
| `AskForward.ExpiryDecides` | actor/request_manager.go:59-79 | a timer takes its request out of the table, a lost packet is gone, and nothing else changes |
| `AskForward.CompletedIsGone` | actor/request_manager.go:81-102 | in every run a request that was completed is no longer pending |
| `AskForward.AskCanComplete` | actor/sender.go:61-134 | from every reachable state in which an Ask is pending and its reference alive, in an outbox, on the net, in a queue or in a handler, some continuation completes it |
| `AskForward.RejectedCompletes` | actor/remote.go:172-176 | also by the rejection of a request that cannot be pushed |
| `ProcessCalls.Process.Answer` | actor/process.go:139-164 | succeeds exactly for an unanswered message whose request can be reached, answers that one request, and otherwise changes nothing |
| `ProcessCalls.Process.Do` | actor/process.go:124-164 | a handler's respond, error or forward: refused once something went out, and counted as out exactly when it succeeds |
| `ProcessCalls.Process.FinishAsk` | actor/process.go:193-208 | after an Ask's handler: the error, then the response, until one goes out; nothing if there is neither |
| `ProcessCalls.Process.Invoke` | actor/process.go:166-191 | whatever the handler calls and returns, or calls before it panics and Panic calls after, at most one reply or forward goes out per message, and every call after it is refused |
| `ProcessQueue.InvKept` | actor/process.go:66-82 | every atomic step of a push, a Stop, a worker or the handler keeps the mailbox and the read and write lock consistent |
| `ProcessQueue.Simulates` | actor/process.go:66-82 | each such step is one section of Lifecycle's on the process, enabled there, or leaves it as it is: a push takes effect at its swap, a message is handled when its worker invokes the handler |
| `ProcessQueue.Refines` | actor/process.go:166-240 | every run of a process on its mailbox, with any messages and any number of producers and workers, is a run in Lifecycle that ends in the same queue and log |
| `ProcessQueue.StopMarkIsLast` | actor/process.go:232-240 | in every such run what entered the queue is Init, then messages, then at most one stop mark with nothing after it, and what was handled is a beginning of that |
| `ProcessQueue.StopIsHandled` | actor/process.go:210-240 | once nobody is in the middle of anything, all that entered was handled, and last the stop mark if and only if Stop was called |
| `ProcessQueue.PushAlone` | actor/process.go:66-82 | in every run a push on a process that is not closing is the mailbox's push, on one that is closing it does nothing, and the lock is given back |
| `ProcessQueue.StopAlone` | actor/process.go:232-240 | in every run the first Stop closes the process and leaves its stop mark last in the queue; later ones do nothing |
| `ProcessQueue.InvokeAlone` | actor/process.go:166-214 | the stop mark is handled by Destroy and the two removals, and has closed the process unless Destroy panicked |
| `ProcessQueue.LocksDecide` | actor/process.go:66-82 | who may take a step: pushes while nobody is in Stop, Stop while nobody is in a push, one handler call at a time |
| `Registry.Manager.constructor` | actor/manager.go:10-17 | an empty table with nothing to wait for |
| `Registry.Manager.AddLocked` | actor/manager.go:32-40 | registers by name and id, an empty name or zero id left out, and counts the id, also one that was registered; the count stays right for a new id |
| `Registry.Manager.RemoveId` | actor/manager.go:46-58 | uncounts exactly when the id was registered |
| `Registry.Manager.RemoveName` | actor/manager.go:60-67 | takes out that name only |
| `Registry.Manager.Remove` | actor/manager.go:42-45 | takes out the name, then the id |
| `Registry.Manager.GetProcess` | actor/manager.go:96-110 | by id first, by name otherwise, and the two error cases |
| `Registry.AddThenFind` | actor/manager.go:27-110 | what was added is found by id and by name, and removing it restores the table |
| `Lifecycle.InvRun` | actor/system.go:70-124 | every run keeps the table, the process lives and the shutdown consistent |
| `Lifecycle.HandledInOrder` | actor/process.go:66-82 | an actor handles Init, then the accepted messages in queue order, then Stop; Destroy begins once, with Stop, and never without it |
| `Lifecycle.NothingAfterDestroy` | actor/process.go:210-240 | once Destroy has begun nothing more is handled or accepted, and Destroy does not begin again |
| `Lifecycle.StopBarrier` | actor/system.go:113-123 | a nil result of System.Stop means every spawned actor's Destroy has ended, and no later spawn succeeds |
| `Lifecycle.RegistryAgrees` | actor/manager.go:27-67 | the wait count is the number of registered ids, and a named process is found by its name and by its id |
| `Shutdown.SpawnDecides` | actor/system.go:70-92 | a spawn that got through is registered, with Init queued, found by id and by name and counted, exactly if its name is free |
| `Shutdown.UnnamedSpawn` | actor/system.go:70-92 | a spawn without a name is registered by id only |
| `Shutdown.SpawnBegins` | actor/system.go:72-77 | a spawn gets through exactly before the shutdown |
| `Shutdown.NoHandler` | actor/system.go:78-80 | a spawn without a handler ends with nothing |
| `Shutdown.PushDecides` | actor/process.go:66-82 | a push is accepted exactly on a process that is not closing and whose mailbox is not full |
| `Shutdown.StopDecides` | actor/process.go:232-240 | the first Stop closes and puts the stop mark last; later ones do nothing |
| `Shutdown.WorkerDecides` | actor/process.go:166-214 | a worker handles messages only between others, ends Destroy before it removes the name, and removes the id last |
| `Shutdown.DestroyAlone` | actor/process.go:210-214 | the stop mark, Destroy and the two removals leave the process destroyed once and out of the table, and closed unless Destroy panicked |
| `Shutdown.ShutdownDecides` | actor/system.go:113-123 | System.Stop begins once no spawn is under way, stops every registered process, and can time out only while it waits |
| `Shutdown.ShutdownEnds` | actor/manager.go:112-119 | once System.Stop was called, without new pushes and spawns only a bounded number of sections is left in any order; when none is, Stop has returned, nil unless it timed out, the table is empty and every Destroy has ended |
| `Directory.Cache.GetCached` | logicalactor/directory/redis.go:121-126 | returns the resident entry |
| `Directory.Cache.TrySet` | logicalactor/directory/redis.go:128-138 | the new owner replaces exactly none or an older one; other keys untouched |
| `Directory.Cache.TryDel` | logicalactor/directory/redis.go:110-119 | removes an entry exactly unless its epoch is higher; other keys untouched |
| `Directory.Cache.Refresh` | logicalactor/directory/redis.go:140-146 | never changes what a lookup returns |
| `Directory.InvRun` | logicalactor/directory/storage.go:14-71 | in every run the stored owner is the one acquired at the current epoch, and so are all owners in caches and calls at theirs |
| `Directory.EpochsAgree` | logicalactor/directory/redis.go:110-164 | two cached owners with equal epochs name the same owner on any nodes, and none is newer than the store, in every run of lookups, acquires, renewals, deletes, expiries, events and evictions |
| `Directory.EpochRises` | logicalactor/directory/storage.go:20-71 | the epoch rises by one on each acquire or delete that wins and never otherwise; a new owner comes with a new epoch |
| `Directory.EpochNeverFalls` | logicalactor/directory/storage.go:20-71 | in every continuation the epoch never falls, and a stored owner that differs from an earlier one has a higher epoch |
| `Directory.GetDecides` | logicalactor/directory/storage.go:14-18 | a lookup answers the stored owner with its epoch, or nothing |
| `Directory.AcquireDecides` | logicalactor/directory/storage.go:20-39 | an acquire wins exactly where nobody or the candidate's node id owns the actor; the candidate is then stored and answered at the next epoch, and otherwise the owner there is |
| `Directory.DeleteDecides` | logicalactor/directory/storage.go:54-71 | a delete removes exactly the owner with that node id and instance, at the next epoch |
| `Directory.CallDecides` | logicalactor/directory/redis.go:148-221 | what each call is left to write to the cache and to publish |
| `Directory.WriteDecides` | logicalactor/directory/redis.go:110-138 | a cache write leaves the newer of the two owners, the resident one if equal; a delete's leaves nothing as old as the delete |
| `Directory.EventDecides` | logicalactor/directory/redis.go:94-119 | an event removes exactly what is not newer |
| `Directory.ExpiryDecides` | logicalactor/directory/storage.go:41-52 | an expired lease leaves no owner at the same epoch; a renewal or eviction changes nothing stored |
| `Directory.CallsReachCache` | logicalactor/directory/redis.go:148-221 | in every run, once the call of an acquire, a lookup or a delete has written its node's cache, that cache answers what the directory does |
| `Directory.ValidNames` | logicalactor/types.go:49-62 | the valid ids are exactly those whose name splits again: one colon, something on both sides |
| `Directory.ResidentEpochRises` | logicalactor/directory/redis.go:110-146 | while an entry stays resident its epoch never decreases |
| `Directory.StaysFresh` | logicalactor/directory/redis.go:94-164 | with no older call waiting, a cache at or above an epoch stays so through every run |
| `Directory.FreshAfterEvent` | logicalactor/directory/redis.go:94-119 | after an update event a cache never again holds an older entry if and only if no call whose script ran earlier is still waiting to write it |
| `Directory.StaleCallLands` | logicalactor/directory/redis.go:128-138 | such a call, after an eviction, does put an older entry back |
| `Directory.StaleCallExists` | logicalactor/directory/redis.go:185-201 | a run that gets there: a lookup is still to write the cache when the event of a delete is applied |
| `Directory.KeysCollide` | logicalactor/directory/types.go:41-43 | owner keys of two actors are equal only for the same actor; an owner key is an epoch key exactly when its actor's key ends in ".epoch" after the other's |
| `Directory.CollidingKeys` | logicalactor/types.go:49-60 | both such actors pass validation |
| `DirectoryCalls.OwnerDirectory.AcquireOwner` | logicalactor/directory/redis.go:148-164 | validation errors change nothing; a failed call, whether or not its script ran, writes no cache and publishes nothing; otherwise the script runs, its owner goes to the cache if newer, and a win is published; a node that was up to date then caches what the directory stores |
| `DirectoryCalls.OwnerDirectory.GetOwner` | logicalactor/directory/redis.go:185-202 | the cached owner without a call, else the stored one, which is then cached, or the call's error with nothing cached |
| `DirectoryCalls.OwnerDirectory.RenewOwner` | logicalactor/directory/redis.go:168-183 | true exactly for the stored instance, unless the call fails; no lookup changes |
| `DirectoryCalls.OwnerDirectory.DeleteOwner` | logicalactor/directory/redis.go:204-221 | deletes exactly the expected instance, uncaches what is not newer, and publishes; a failed call does neither of the last two |
| `DirectoryCalls.AcquireThenGet` | logicalactor/directory/redis.go:148-202 | a lookup right after an acquire on the same node answers who the acquire said owns the actor: the candidate exactly if nobody else did |
| `DirectoryCalls.ProblemIs` | logicalactor/types.go:74-85 | an invalid actor is reported first; a node is refused exactly if one of its parts is only white space |
| `DirectoryCalls.Spaces` | logicalactor/types.go:74-85 | what counts as white space: the 25 characters of the Unicode standard |
| `Activation.InvKept` | logicalactor/router_actor.go:46-95 | under the five guarantees every step keeps: who acquired, failed to spawn or hosts is the directory's owner |
| `Activation.Hosted` | logicalactor/router_actor.go:46-126 | a process that finds no owner, or its own node id, acquires, spawns and hosts at the next epoch |
| `Activation.CanBeHosted` | logicalactor/router_actor.go:46-181 | under the five guarantees, in every reachable state every live process that is not busy with the actor can still come to host it, whether its owner is alive, dead or nobody |
| `Activation.RouterDecides` | logicalactor/router_actor.go:46-95 | a router handles one request at a time, and a failed spawn leaves the ownership to be given back |
| `Activation.Declines` | logicalactor/router_actor.go:46-95 | a process that finds another node's owner leaves it alone, and one that hosts acquires nothing |
| `Activation.PlaceDecides` | logicalactor/router.go:206-240 | a resolver's acquire stores its candidate exactly where nobody, or its own node id, owns the actor |
| `Activation.HostingEnds` | logicalactor/router_actor.go:96-126 | a process that hosts goes on until it crashes or begins to destroy the actor |
| `Activation.LateDecides` | logicalactor/router_actor.go:175-181 | a delete whose call failed may still run, once |
| `Activation.SingleActivation` | logicalactor/router_actor.go:46-95 | in every run at most one process hosts and it is the directory's owner, if and only if no two live processes have the same node id, acquires name current instances, leases hold while owners live, liveness checks fail only for dead owners, and deletes whose call failed do not run later |
| `Activation.UnseatedByStaleCandidate` | logicalactor/directory/storage.go:24-31 | an acquire naming the instance before a restart ends with a host that is not the owner |
| `Activation.UnseatedByLateDelete` | logicalactor/router_actor.go:175-181 | a failed delete that runs after the next activation on the same node ends with a host and no owner |
| `Activation.TwinsHost` | logicalactor/directory/storage.go:24-31 | two live processes with one node id both acquire and both host |
| `RouterCalls.ResolveOwner` | logicalactor/router.go:206-240 | returns the owner of the first attempt in which it was alive, deletes exactly the owners found dead before it, and otherwise returns the problem of the last attempt |
| `RouterCalls.RoundIs` | logicalactor/router.go:206-240 | the owner looked up counts before one that placing found, which is asked for only without one; each round without a live owner has exactly one problem |
| `RouterCalls.DeletesAre` | logicalactor/router.go:226-234 | deleted are exactly the owners found dead |
| `Config.TcpConfig.Normalize` | network/config.go:67-77 | defaults for sizes of 0 or less, a read buffer for the inbound limit and one read chunk, and normalizing again changes nothing |
| `Buffer.Buffer.constructor` | pkg/buffer/buffer.go:48-65 | an empty buffer with default and clamped capacities |
| `Buffer.Buffer.Compact` | pkg/buffer/buffer.go:112-116 | moving the unread bytes to the front keeps them |
| `Buffer.Buffer.GrownCap` | pkg/buffer/buffer.go:124-133 | the doubling loop ends, with room for the required bytes and within the maximum |
| `Buffer.Buffer.EnsureSpace` | pkg/buffer/buffer.go:106-141 | succeeds exactly when the unread bytes and n more fit the maximum, and keeps the unread bytes either way |
| `Buffer.Buffer.Append` | pkg/buffer/buffer.go:152-153 | copying into the free space appends the bytes |
| `Buffer.Buffer.Write` | pkg/buffer/buffer.go:144-155 | appends all bytes, or refuses and keeps the contents |
| `Buffer.Buffer.WriteByte` | pkg/buffer/buffer.go:200-207 | appends one byte, or refuses and keeps the contents |
| `Buffer.Buffer.Read` | pkg/buffer/buffer.go:210-221 | moves the oldest bytes out, end of data only when empty |
| `Buffer.Buffer.ReadByte` | pkg/buffer/buffer.go:224-231 | moves the oldest byte out |
| `Buffer.Buffer.Peek` | pkg/buffer/buffer.go:234-242 | the oldest n bytes without moving them, or too few |
| `Buffer.Buffer.Skip` | pkg/buffer/buffer.go:245-254 | drops exactly n bytes, or nothing if there are fewer |
| `Buffer.Buffer.ReadOnce` | pkg/buffer/buffer.go:164-179 | one round fails exactly when the buffer is full and growing by the larger of its capacity and the default would pass the maximum |
| `Buffer.Buffer.WriteReader` | pkg/buffer/buffer.go:159-197 | takes until the reader ends, fails or has nothing, or the growth is refused, never stops before, says which it was, and keeps every byte it took in order |
| `Buffer.Buffer.Reset` | pkg/buffer/buffer.go:83-86 | leaves no unread bytes |
| `Buffer.PerformAll` | pkg/buffer/buffer.go:106-254 | any sequence of operations shows, gives out and leaves the bytes a queue of bytes would, through every compaction and growth |
| `Buffer.QueueConserves` | pkg/buffer/buffer.go:143-254 | over any operations, what went out and what is left is what was there and what entered, in order, within the maximum |
| `FrameCodec.EncodeMessageFrame` | network/protocol/codec.go:33-59 | the array filled in place is the frame's wire form, with the same three refusals |
| `FrameCodec.Layout` | network/protocol/codec.go:49-57 | each field of an encoding is at its place, whatever follows |
| `FrameCodec.U16RoundTrip` | network/protocol/codec.go:54 | big-endian 16-bit numbers are a bijection |
| `FrameCodec.U32RoundTrip` | network/protocol/codec.go:50 | big-endian 32-bit numbers are a bijection |
| `FrameCodec.BigEndian` | network/protocol/codec.go:50-56 | the most significant byte comes first |
| `FrameCodec.EncodeRefuses` | network/protocol/codec.go:33-47 | refused exactly for an unknown internal act, more than 31 bits of size, or a size over the limit |
| `FrameCodec.DecodeDecides` | network/protocol/codec.go:67-112 | what decoding makes of any header and what follows it: length first, then missing bytes, checksum, internal act |
| `FrameCodec.ShortNeedsMore` | network/protocol/codec.go:67-70 | less than a header needs more |
| `FrameCodec.DecodeOfEncode` | network/protocol/codec.go:33-112 | decoding an encoding followed by anything gives the frame and its exact length, or "too large" exactly when the receiver's limit is smaller |
| `FrameCodec.EncodeOfDecode` | network/protocol/codec.go:67-112 | what decodes re-encodes to exactly the consumed bytes |
| `FrameCodec.DecodeIsStable` | network/protocol/codec.go:65-112 | a result other than "need more" is unchanged by appending bytes |
| `FrameCodec.EncodingsPrefixFree` | network/protocol/codec.go:33-59 | no encoding is the beginning of another |
| `FrameCodec.PartialIsShort` | network/protocol/codec.go:67-86 | bytes that need more are fewer than the limit, or than a header |
| `ReadLoop.ProcessReadBuffer` | network/base_connection.go:285-304 | consuming the buffer frame by frame delivers what one parse of it does and keeps the partial rest; the check of the consumed size never fires |
| `ReadLoop.ProcessChunk` | network/tcp_connection.go:79-87 | one read: refused only when the buffer is full, else parsed together with what was left |
| `ReadLoop.RunReadLoop` | network/tcp_connection.go:61-91 | the loop over the reads delivers, fails and leaves what the chunk-by-chunk parse does, and its check of the consumed size never fires |
| `ReadLoop.ChunkingInvariance` | network/tcp_connection.go:61-91 | however the stream is cut into reads of at most 8 KiB, the frames, the state and the final error are those of a parse of the whole stream |
| `ReadLoop.ConsumeSizeIsRight` | network/base_connection.go:291-294 | a parse in any pieces ends with no such error, which is why the check of the loop cannot fire |
| `Capacity.EnoughCapacity` | network/config.go:70-76 | under a limit that admits frames, no legal traffic ever fills the buffer if and only if its maximum leaves room for the longest partial frame and one read chunk |
| `Capacity.RoomIsEnough` | network/base_connection.go:285-304 | with that room no stream at all, legal or not, fills the buffer |
| `Capacity.TrafficStalls` | network/protocol/codec.go:67-86 | a stream of legal frames, the longest one first, of which no proper beginning of that frame is whole |
| `Capacity.FramesNeedAHeader` | network/protocol/codec.go:41-47 | frames can be sent, and received, if and only if the limit is at least a header |
| `Capacity.NormalizedCapacity` | network/config.go:67-77 | every normalized configuration under which frames can be sent leaves more than that room |
| `Capacity.DripOverflows` | network/base_connection.go:285-304 | with less room, the longest frame one byte a read and then a full chunk fills the buffer |
| `Stream.StreamDelivers` | network/base_connection.go:259-304 | reading any part of concatenated encodings, in any pieces, handles exactly the frames that part holds whole, in order |
| `Stream.StreamKeeps` | network/base_connection.go:259-304 | what each handled frame keeps holds after any part of the stream read in any pieces |
| `Pipeline.New` | network/codec/pipeline.go:29-41 | succeeds exactly on present transforms with distinct single-bit flags; otherwise reports the problem of the first bad one: missing or not one bit, or a flag taken before |
| `Pipeline.EncodeLoop` | network/codec/pipeline.go:50-69 | applies the transforms in order and collects the flags of those that applied, or the first error |
| `Pipeline.DecodeLoop` | network/codec/pipeline.go:78-93 | refuses unknown flags, else undoes the flagged transforms in reverse order |
| `Pipeline.EncodeStages` | network/codec/pipeline.go:50-69 | an encoding that succeeds went through every transform in order, and its flags are exactly those of the transforms that did something |
| `Pipeline.EncodeFails` | network/codec/pipeline.go:56-60 | one that fails has the error of the first transform that refuses |
| `Pipeline.UnknownRefused` | network/codec/pipeline.go:78-82 | flags of no transform are refused, and no others are |
| `Pipeline.UndoLastOnly` | network/codec/pipeline.go:83-91 | a transform with its flag set that refuses makes decoding fail with its error; one without its flag is not asked |
| `Pipeline.FlagBits` | network/codec/pipeline.go:65 | bit k of the flags byte stands for flag k |
| `Pipeline.DecodeOfEncode` | network/codec/pipeline.go:50-93 | decoding an encoding gives the data back or a transform's own error, never unknown flags; if no transform refuses its own output, it gives the data back |
| `Pipeline.SharedFlagBreaks` | network/codec/pipeline.go:35-37 | without the duplicate check two exact transforms fail to round-trip |
| `Pipeline.BitsRoundTrip` | network/codec/pipeline.go:65 | the flags byte of a frame carries exactly the flags that were set |
| `Pipeline.GzipFaithful` | network/codec/zlib.go:39-76 | the compressor packs exactly what has the minimum size, and gives the data back, or "too large" exactly when the limit is positive and smaller |
| `Pipeline.GzipExact` | network/codec/zlib.go:58-76 | it never refuses its own output if and only if it has no size limit |
| `Cipher.Crypt` | network/encrypt/ecdh_cipher.go:81-97 | the loop encrypts or decrypts every byte at its place; a key of the wrong length is refused either way |
| `Cipher.BlockByte` | network/encrypt/ecdh_cipher.go:61-68 | to byte a of each 32-byte block key byte a is added, wrapping, and of the sum exactly those bits are flipped that are set in the key byte 13 places further round |
| `Cipher.ZeroKey` | network/encrypt/ecdh_cipher.go:81-97 | a key of zeros leaves the data as it is |
| `Cipher.RoundTrip` | network/encrypt/ecdh_cipher.go:66-79 | under one key encryption and decryption undo each other, both ways |
| `Bits.XorTwice` | network/encrypt/ecdh_cipher.go:91-93 | exclusive or with the same byte twice is the byte, within its bits |
| `Bits.XorBits` | network/encrypt/ecdh_cipher.go:91-93 | bit k of the result is set exactly when it is set in one operand and not in the other |
| `Bits.XorIsSum` | network/encrypt/ecdh_cipher.go:91-93 | exclusive or plus twice the "and" is the sum |
| `Bits.OrBits` | pkg/snowflake/snowflake.go:136 | bit k of an "or" is set exactly when it is in an operand |
| `Bits.AndBits` | pkg/snowflake/snowflake.go:142-155 | bit k of an "and" is set exactly when it is in both |
| `Bits.ShlIsTimes` | pkg/snowflake/snowflake.go:136 | shifting left multiplies by the power of two |
| `Bits.ShrIsDivision` | pkg/snowflake/snowflake.go:142-155 | shifting right divides by it, rounding down |
| `Session.InvKept` | network/base_connection.go:208-244 | every atomic step of either end keeps its own and the other's invariants |
| `Session.KeyExchangeFirst` | network/base_connection.go:349-364 | with encryption the key exchange is the first frame each end queues and its only internal one, and every later body is encrypted under the key both ends derive |
| `Session.NeverTooEarly` | network/base_connection.go:118-126 | the receive path finds the handshake incomplete only on a closed connection, and never lacks a key |
| `Session.NothingRefused` | network/base_connection.go:306-324 | with matching limits and no self-refusing transform, no received frame is too large or fails to decode |
| `Session.DeliveredInOrder` | network/base_connection.go:326-347 | what an application was given is the beginning of what the other queued, and all of it once all is read |
| `Session.DeliveredAsSent` | network/base_connection.go:375-404 | the k-th delivered frame is the k-th the other application queued: same command, action, error, index and body, and flags too without a codec |
| `Session.HandshakeCanComplete` | network/base_connection.go:224-257 | if keys can be sent and agree, some run leaves both ends ready with the same key |
| `Sending.SendQueues` | network/base_connection.go:375-420 | on a ready end with its key and room in its channel, a send of a business frame that packs and fits queues exactly that frame last |
| `Sending.SendBegins` | network/base_connection.go:368-373 | a send begins exactly for a business frame that packs, on an end that is not closed |
| `Sending.SendDecides` | network/base_connection.go:107-116 | when each step of a send goes on and when it drops the frame: not ready, no key, over the limit, no room |
| `Sending.QueuedIsSent` | network/base_connection.go:368-420 | in every run a frame was queued exactly as often as a send of it succeeded |
| `Sending.TooEarlyNeverQueued` | network/base_connection.go:107-110 | a send whose check finds the connection not ready is dropped and never gets further, whatever follows |
| `Sending.ClosedIsFinal` | network/base_connection.go:368-373 | after a close nothing more is delivered and no send begins |
| `Sending.BusinessDecides` | network/base_connection.go:306-340 | what receiving a business frame comes to: over the limit, too early, not decodable, or held for the application |
| `Sending.InternalDecides` | network/base_connection.go:326-364 | what receiving an internal frame comes to |
| `Sending.DeliverDecides` | network/base_connection.go:337-347 | the application is given a frame exactly on a connection that is still ready |
| `Sending.HandshakeDecides` | network/base_connection.go:208-257 | where a handshake fails and where it goes on |
| `Sending.PlainStart` | network/base_connection.go:224-257 | without encryption a new connection is ready as soon as it has started, and reads once the application agreed |
| `Sending.QueuedCanArrive` | network/tcp_connection.go:61-91 | from every reachable state with an end that is ready and reading, some continuation delivers to it all that the other end has queued |
| `Sending.SendCanArrive` | network/base_connection.go:259-420 | end to end: from every reachable state with one end able to send a frame and the other ready and reading, some continuation sends it and delivers it last with its body |
| `SessionBytes.BytesDeliver` | network/tcp_connection.go:61-91 | in every run, any part of the other end's unread bytes, cut into reads in any way, leads the read loop to a state of the session in which the application has a beginning of what was queued, and without an error exactly what arrived whole |
| `SessionBytes.UnreadSendable` | network/base_connection.go:375-404 | in every run what an end has written fits the other end's limit and can be encoded |
| `PeerTable.PeerManager.SetLocked` | cluster/transport/nettransport/peer_manager.go:31-33 | sets that entry only |
| `PeerTable.PeerManager.GetLocked` | cluster/transport/nettransport/peer_manager.go:35-38 | returns that entry |
| `PeerTable.PeerManager.Remove` | cluster/transport/nettransport/peer_manager.go:40-48 | removes the entry only if it is still this peer's |
| `PeerTable.InvKept` | cluster/transport/nettransport/handler.go:41-166 | every step of dials, Hellos and closes keeps the table and each peer consistent |
| `PeerTable.LivePeersAreEntered` | cluster/transport/nettransport/handler.go:108-142 | while no connection takes another id, a live connected peer is the entry for its id, and an entry that outlives its close callback was registered after that callback looked |
| `PeerTable.OneLive` | cluster/transport/nettransport/transport.go:121-150 | at most one live connected peer an id, in every run of dials, inbound Hellos and closes |
| `PeerTable.OneLiveExactly` | cluster/transport/nettransport/peer.go:56-64 | that holds in every run if and only if a connection cannot take another id with a second Hello |
| `PeerTable.ConnectDecides` | cluster/transport/nettransport/transport.go:121-150 | connecting does nothing for the own id or one with an entry, and enters and dials any other |
| `PeerTable.DialConnects` | cluster/transport/nettransport/transport.go:121-150 | in every run a dial that opens and is answered with the dialed id ends as the live connected peer of the id |
| `PeerTable.DialGivesUp` | cluster/transport/nettransport/transport.go:135-150 | a dial that fails takes its entry away again |
| `PeerTable.WrongIdRefused` | cluster/transport/nettransport/peer.go:56-64 | a Hello with another id than the dialed one is turned down |
| `PeerTable.HelloDecides` | cluster/transport/nettransport/handler.go:108-142 | the second step of a first Hello enters its peer and shuts the attached connection that had the entry, unless the peer left the handshake |
| `PeerTable.SecondHelloDecides` | cluster/transport/nettransport/handler.go:108-142 | a second Hello is bound where its id may be and then turned down, with table and connections as they were; a third is ignored |
| `PeerTable.ConnectionDecides` | cluster/transport/nettransport/handler.go:41-166 | when each event of a connection has an effect, and which |
| `PeerTable.CloseLeaves` | cluster/transport/nettransport/handler.go:144-166 | a connected peer that closes leaves the table, and its id can be dialed again |
| `PeerTable.OutlivesCloseExactly` | cluster/transport/nettransport/handler.go:118-166 | for every Hello that registers, in every state and every continuation in which no other Hello registers under its id, whether connections take other ids or not: the peer is still the entry for that id if and only if its close callback had run by the registration, or has not run, or looked under another id or none, and no dial to that id failed since; if its connection has ended by then, the entry is stuck |
| `PeerTable.OutlivesCloseWithoutRenaming` | cluster/transport/nettransport/handler.go:118-166 | in every run in which no connection takes another id, for a Hello of a connection that is not being dialed: once its close callback has finished, it is still the entry if and only if that callback had looked before the Hello registered |
| `PeerTable.StuckStays` | cluster/transport/nettransport/transport.go:127-131 | an entry whose connection has ended stays, and connecting to its id does nothing, until another connection brings a Hello with the id |
| `PeerTable.HelloAfterClose` | cluster/transport/nettransport/handler.go:118-136 | a run that gets there: the close callback between the two steps of the Hello |
| `PeerTable.RenamedBeforeClose` | cluster/transport/nettransport/peer.go:56-64 | another: a second Hello with another id, bound and then turned down, before the connection closes |
| `Snowflake.SnowFlake.WaitForMillis` | pkg/snowflake/snowflake.go:102-109 | returns at the first reading later than the exhausted millisecond and leaves the readings after it, or finds none among them all |
| `Snowflake.SnowFlake.GenId` | pkg/snowflake/snowflake.go:112-140 | succeeds exactly when an attempt does before the readings end, each failed one waiting past the last millisecond; then the last time and sequence are exactly those of that attempt, and the word is packed from them, wrapping as 64-bit words do; nothing changes otherwise |
| `Snowflake.AttemptDecides` | pkg/snowflake/snowflake.go:118-134 | a later millisecond starts at 0, the same one or an earlier reading goes on with the next number, refused exactly when there is none left |
| `Snowflake.MillisecondGives` | pkg/snowflake/snowflake.go:118-134 | a millisecond gives exactly 2^sequenceBits ids, numbered from 0, however often it is read |
| `Snowflake.GenerateDecides` | pkg/snowflake/snowflake.go:112-140 | a call gives the mark of its first reading if that allows one, and otherwise what a call after the wait would |
| `Snowflake.AfterWaitIs` | pkg/snowflake/snowflake.go:102-109 | the wait ends at the first later reading and leaves what comes after |
| `Snowflake.SignedWord` | pkg/snowflake/snowflake.go:136 | a packed word is the signed number that it is modulo 2^64 |
| `Snowflake.IdIsSum` | pkg/snowflake/snowflake.go:136 | the shifted and or-ed fields do not overlap |
| `Snowflake.IdFits` | pkg/snowflake/snowflake.go:70-82 | an id is below 2^63 |
| `Snowflake.PackedInRange` | pkg/snowflake/snowflake.go:136 | within the timestamp range nothing wraps: the packed word is the id |
| `Snowflake.ParseOfId` | pkg/snowflake/snowflake.go:142-155 | parsing gives back the time always, machine and sequence exactly when below 2^31 |
| `Snowflake.IdsRise` | pkg/snowflake/snowflake.go:112-140 | whatever the clock does within range and however many callers there are, the packed ids rise strictly, are not negative and parse back to their times |
| `Snowflake.MachinesDiffer` | pkg/snowflake/snowflake.go:136 | machines with the same bit lengths never share an id, whatever their clocks |
| `Snowflake.NewDecides` | pkg/snowflake/snowflake.go:55-90 | exactly which configurations and starts are accepted, and the layout they give |
| `Snowflake.NewInRange` | pkg/snowflake/snowflake.go:55-90 | an accepted start has the present in range exactly when it is young enough, which the check can miss by one millisecond, and by more only for starts of 2^63 nanoseconds |
| `Snowflake.NewOutOfRange` | pkg/snowflake/snowflake.go:86-88 | a start just before a millisecond is accepted with the present out of range |
| `Snowflake.NewSaturates` | pkg/snowflake/snowflake.go:86-88 | a start too old for the time difference is accepted with the present out of range |

## Left out

- Sockets, listeners, dialers, UDP and WebSocket servers, Consul registry and watcher, Redis client calls, logging and YAML: input and output without decisions of their own.
- Protobuf, JSON, gzip, CRC-32, X25519 and HKDF internals: functions given as parameters.
- Real time, timing wheels and heartbeats: a timeout, lease expiry, heartbeat failure or clock reading is an action or an input.
- Gateway, client routes, node assembly, component lifecycle, placement strategies, error codes: wiring and small tables that would add only easy members.
- The decoders of script results in logicalactor/directory/storage.go: an owner that fails to decode or validate is not modelled, so every stored owner has a node id and an instance.
- forceStop, which neither sets `closing` nor stops later messages: no run uses it.
- Envelopes a user builds with copied metadata: a reference enters only through Ask, Forward and the remote handlers.
- Internal frames sent through SendMessage: applications are taken to send business commands only, as the protocol reserves command 0 for the network layer.
- Failed socket writes followed by draining: a written frame reaches the wire whole and in order.
- A throughput of 0 or less in module MailboxCalls, whose `run` would then yield for ever: MailboxProgress.NothingHandled says what follows.
- A message counter of 2^31 or more, and buffer capacities above 2^62, where the machine integers would wrap.
- The unused `limit` field and the copying views (`Readable`, `View`, `String`) of the buffer.
- AskForward.OneTokenPerAsk: an Ask whose handler returns neither a response nor an error stays open until its timeout, by design; nothing says that an Ask is answered.
- The fields of peer, baseConn, RouterActor and System are values in the transition systems and not objects, because several goroutines read them between steps; the models do not capture aliasing between them.
- Mpsc.Queue.Pop: clearing the popped node's value is modelled, garbage collection is not.
- Session.NeverTooEarly: a handshake may still fail by timeout, a full channel, a close or an unusable key; that it ends at all is not promised by the code.
- Runs of two actors whose keys collide, as Directory.KeysCollide says: the runs of module Directory are of one actor with keys of its own.
- A restarted node whose ids start again at a random number and repeat one from before the restart: in AskForward an Ask gets a reference that its node never gave before.
- The spawn lock, the table and the shutdown on the mailbox's atomic steps: ProcessQueue is of one process whose spawner has pushed Init; those are Lifecycle's.
