# ESCA in Dafny

ESCA offloads system calls. A preloaded library (the producer) stores each call of a batch into a
slot of a ring shared with the kernel, and one kernel thread per ring (the worker) executes the
slots later. A ring is `MAX_TABLE_LEN` tables of `MAX_TABLE_ENTRY` entries; its size N is their
product. Wrappers that pass pointers first copy the caller's data into pools the kernel reads when
it gets to the call. The repository also holds an io_uring echo server used for comparison.

The project models four parts and proves what each is for.

**The ring** (`Cursors`, `Calls`, `RingProtocol`, `RingStatus`, `RingFlags`, `RingLiveness`,
`RingRuns`, `RingIdle`, `RingOverflow`, `RingDeadlock`, `EscaRing`, `TableLayout`). Producer and worker are a state machine whose steps interleave freely:
every store of a wrapper, the spin test, the tail advance, the BUSY store, the poll, each of the
prepare, flag, re-check and schedule steps of falling asleep, the tail snapshot, each execution, each
status clear, the head publication, and the read, raise, wake and lower steps of `batch_start`. Two
history sequences, `submitted` and `executed`, carry the meaning. `EscaRing` holds the same code in
place, on arrays and fields; its methods are proved to take steps of the machine, so what is proved
of all runs holds of them.

**The wrappers** (`Regions`, `BytePool`, `SideData`, `TlsWrite`, `SharedPool`, `SendmsgGather`,
`SendmsgServer`, `SendmsgHeaders`, `SendfileOffsets`, `Wrappers`). `SideData` says once, for any memory, what has to stay true for an
executed call to ask the kernel for what its caller asked for; `write`, `sendmsg` and `sendfile64` are three
instances.

**Routing** (`Routing`, `RoutingOrder`). One thread, RATIO rings with a worker each.

**The echo server** (`Counting`, `EchoServer`, `EchoOwnership`, `EchoSupply`, `EchoOverload`,
`EchoIsolation`). Completion handlers in place, and the kernel side as a machine. Ownership is a
count: for every buffer, every descriptor and the accept, the number of requests and completions
that own it.

`Basics` holds what several of these share.

## Main results

- `RingProtocol.ExecutedIsPrefixOfSubmitted`: under every interleaving the executed calls are a
  prefix of the submitted ones, each with the registers its wrapper meant.
- `RingOverflow.SafeIffFits`, `RingLiveness.SpinEndsIffWorkerAwake`, `RingDeadlock.StuckIffItCanWait`,
  `RingIdle.IdleWorkerSleepsIff`, `RingIdle.KeptAwakeIff`,
  `SharedPool.BuffersAreSafeIff`, `SendmsgHeaders.MessagesAreSafeIff`,
  `SendmsgHeaders.HeadersAreKeptIff`, `SendmsgGather.GatherIsExact`,
  `RoutingOrder.OrderKeptIffSameRing`, `EchoOverload.NeverOutOfBuffersIff`: the exact conditions of
  properties that do not hold everywhere.
- `RingStatus.StatusesAreExact`, `RingFlags.FlagsAreExact`: on every run, exactly which slots are
  BUSY, and exactly when either flag is up and the worker is on the wait queue.
- `RingLiveness.NotStranded`: a visit of `batch_start` leaves no earlier call behind, within a
  bounded number of worker steps.
- `TlsWrite.WritesSeeTheirBuffers`, `SendmsgServer.CheckedMessagesAreSentWhole`,
  `SendfileOffsets.OffsetsArePrivate`: what the kernel is asked to do is, in order, what the callers
  asked for, descriptors, flags and data alike, over any number of pool wraps and slot reuses.
- `EchoOwnership.EveryRunKeepsOwnership`, `EchoIsolation.EverySendEchoes`: on every run, overloaded
  or not, every buffer, descriptor and the accept have one owner until the server exits, and what is
  sent is what the same connection sent last. `EchoSupply.EveryRunIsSupplied`: with no more
  connections than buffers, no receive finds the pool empty.

## Where the code falls short of what it is meant to do

The model keeps the code as it is. Each of these has a lemma with the failing case and the exact
condition.

- The spin test of `update_index` (wrapper/preload.c:129) misses the full ring when `head_entry` is
  0 (`Cursors.GuardAsWritten`). After the advance it lets through, wherever the worker stands, the
  producer can lap onto the first call not yet executed and have another one run in its place
  (`RingOverflow.OverflowLosesACall`), and every ring of at least two entries can get there
  (`RingOverflow.EveryRingCanLoseACall`). `Config.guard` selects the test as written or the one it
  stands for, "next(tail) = head". Results about runs hold outright for the latter, and for the
  former on runs that fit, that is, on which no advance is taken with exactly N-1 entries outstanding
  and `head_entry` 0. Only the first advance past a full ring is told apart in this way: the ones
  that follow it, with N or more outstanding and `head_entry` still 0, are let through by the same
  missing case, and the losing continuations of `OverflowLosesACall` contain them.
- Nothing wakes a sleeping worker inside a batch. A producer that fills the ring meanwhile spins for
  ever, in every configuration in which its test can be true at all
  (`RingDeadlock.StuckIffItCanWait`).
- The tail moves before the wrapper stores BUSY, so an entry can be run and cleared first. The late
  store leaves its slot BUSY, and a lap later a worker with nothing to do goes round empty passes
  instead of sleeping (`RingIdle.CanBeKeptAwake`). It takes a ring of three or more entries
  (`RingIdle.KeptAwakeIff`).
- All rings of a thread copy into one byte pool, so with RATIO above 1 a late ring's data is
  overwritten whatever the pool's size (`SharedPool.TwoRingsMixBuffers`).
- A message whose iovecs cross index 1024 is not read back as sent (`SendmsgGather.GatherIsExact`).
- With N above 1024 a later header takes the slot of a call still pending, which is then sent as
  another message (`SendmsgHeaders.OverwriteHeader`).
- The nginx wrapper routes `sendfile64` by its input descriptor and `close` by the descriptor
  closed, so a close can overtake (`RoutingOrder.CanOvertake`).
- A negative descriptor routes into another worker's rings unless RATIO divides it
  (`Routing.StaysInOwnRings`).
- The user and kernel views of a table disagree when there are several tables and a table does not
  fill its page (`TableLayout.ViewsAgreeIff`).
- The message on the ENOBUFS branch says it should not happen; it does as soon as there can be more
  live connections than buffers (`EchoOverload.OverloadEmptiesPool`).

## Assumptions

- Steps interleave under sequential consistency. A read-modify-write of the flag word is one step.
  A (table, entry) cursor pair is read and written as one step; with one table, the default, its
  table half never changes.
- The status clear of an executed slot and the worker's private bookkeeping after it (local cursor,
  count) are one step. So are a wrapper's copy into a pool and the pool offset it leaves, which only
  the producer reads.
- Executing a call is an event: the table index and the six argument registers. What a call finds
  behind its registers is looked up in the memory at the moment it is executed. An executed
  `sendfile` may leave any value in its private offset.
- Cursor fields are `short` in the source; the values stay below N and are not truncated here.
- A buffer or fragment is no larger than the whole byte pool; the source copies past the pool's end
  otherwise.
- Echo server: a submission slot is always obtained; provides succeed and take effect in submission order; only
  buffer selection fails with ENOBUFS; a completed receive carries the buffer it selected; sends are
  not short; an accept returns a descriptor that is not live.

## Model

| member | source | states |
|---|---|---|
| `Cursors.NextIndex` | wrapper/preload.c:132-137 | stepping the nested (table, entry) cursor adds one to the flat index, back to 0 after the last entry, and stays in range |
| `Cursors.PlaceIsWrap` | module/lioo.c:300-305 | after n steps from the start the nested cursor names slot n modulo N |
| `Cursors.WalkReachesTail` | module/lioo.c:278-327 | for all cursors in range, stepping the head as often as the two-case formula says lands exactly on the tail it was computed from |
| `Cursors.SnapshotIsOutstanding` | module/lioo.c:278-282 | the two-case formula equals T-H if and only if T-H is below N; with a whole lap outstanding it gives 0 |
| `Cursors.GuardAsWritten` | wrapper/preload.c:129 | for all cursors in range the spin test is "next(tail) = head and head_entry is not 0" |
| `Cursors.AdvanceKeepsCapacity` | wrapper/preload.c:129-137 | a passed test followed by an advance keeps T-H at most N-1, and the next snapshot correct, if and only if it is not the case of N-1 outstanding with head_entry 0 |
| `Calls.IndirectCall` | module/lioo.c:86-122 | the fall-through switch leaves the first argc arguments in the registers and zeros behind them, all zeros for a count it has no case for |
| `Calls.HeldCallDispatchesItsImage` | module/lioo.c:285-288 | a slot holding a call executes as that call's own arguments followed by zeros, whatever an earlier, wider call left in the slot |
| `RingProtocol.InitialInv` | module/lioo.c:386-399 | registration over tables of any content establishes the ring invariant |
| `RingProtocol.FillKeepsInv` | wrapper/ngx_tls.c:19-23 | a store into the slot at the tail disturbs no pending slot and extends what the slot holds of its call |
| `RingProtocol.AdvanceKeepsInv` | wrapper/preload.c:129-137 | an advance that fits keeps H <= L <= T <= H+N-1 and every pending slot whole |
| `RingProtocol.MarkKeepsInv` | wrapper/ngx_tls.c:30 | the late BUSY store lands on the entry submitted last, even when the worker has already run it |
| `RingProtocol.SnapshotKeepsInv` | module/lioo.c:278-282 | the pass that starts here ends no later than the tail |
| `RingProtocol.ExecuteKeepsInv` | module/lioo.c:284-288 | the call run is the next submitted one, whole |
| `RingProtocol.ClearStatusKeepsInv` | module/lioo.c:291-307 | the executed slot is EMPTY again, every later marked entry is still BUSY, and the local cursor is at the next entry |
| `RingProtocol.PublishKeepsInv` | module/lioo.c:326-327 | publishing moves the head to the local cursor and frees exactly the executed slots |
| `RingProtocol.WaitStepKeepsInv` | module/lioo.c:246-276 | the steps of polling and sleeping keep a worker that can block on the wait queue with NEED_WAKEUP raised |
| `RingProtocol.BatchStepKeepsInv` | wrapper/preload.c:96-102 | the steps of a visit keep the invariant |
| `RingProtocol.StepKeepsInv` | module/lioo.c:241-327 | every step of either thread that is no overflow keeps the whole invariant |
| `RingProtocol.RunKeepsInv` | module/lioo.c:241-327 | so does every run, outright for the intended test and on runs that fit for the test as written |
| `RingProtocol.ExecutedIsPrefixOfSubmitted` | wrapper/ngx_tls.c:19-30 | from registration on, under every interleaving, the executed calls are the first submitted ones, in order, each once, none skipped, stale or half-written |
| `RingProtocol.PendingCallsAreFrozen` | wrapper/preload.c:124-138 | no producer step changes the call of an entry between the published head and the tail |
| `RingProtocol.StaleMarkRunsNothing` | module/lioo.c:246-291 | a BUSY mark left on an executed slot leads the worker round its loop and back to the same state, nothing executed twice |
| `RingStatus.MarkKeepsStatuses` | wrapper/ngx_tls.c:30 | the BUSY store makes one slot BUSY and no other; it is late exactly when the entry has been passed |
| `RingStatus.ClearKeepsStatuses` | module/lioo.c:291 | the EMPTY store makes the executed slot EMPTY and touches no other |
| `RingStatus.StatusesAreExact` | module/lioo.c:246-291 | on every run from registration, every slot is BUSY exactly for an entry marked and not yet cleared, or for a late mark not cleared since, and unused slots are EMPTY |
| `RingStatus.IdleHeadIsEmptyIff` | module/lioo.c:246 | with everything executed, the slot the worker polls is EMPTY if and only if the entry one lap back was not marked after it had been cleared |
| `RingIdle.IdleWorkerSleepsIff` | module/lioo.c:246-276 | after every run, a worker with everything executed can fall asleep on its own if and only if the entry one lap back was not marked late |
| `RingIdle.CanBeKeptAwake` | module/lioo.c:246-291 | with three or more entries, a run from registration that leaves a worker with nothing to run and no way to sleep |
| `RingIdle.KeptAwakeIff` | wrapper/ngx_tls.c:25-30 | such a run exists if and only if the ring has three or more entries |
| `RingFlags.FlagsAreExact` | module/lioo.c:258-275 | on every run from registration, START_WAKEUP is up exactly during a wake-up call, the worker is on the wait queue exactly while not runnable and only in its wait, and NEED_WAKEUP is up exactly in the wait and before the first wait has ended |
| `RingLiveness.HeadIsBusy` | module/lioo.c:246 | a waiting worker with a marked entry pending cannot read EMPTY |
| `RingLiveness.WorkerCanStep` | module/lioo.c:246-276 | the worker has a step to take if and only if it is not past an EMPTY re-check without having been woken |
| `RingLiveness.WorkerStepDecreases` | module/lioo.c:246-327 | every worker step, with a marked entry pending, publishes past it or lowers a measure over phase and remaining count |
| `RingLiveness.PendingIsPublished` | module/lioo.c:284-327 | a run with that many worker steps, however interleaved, publishes past the entry |
| `RingLiveness.VisitRescues` | wrapper/preload.c:97 | wherever the worker stands in its sleep sequence, reading the flag catches it |
| `RingLiveness.NotStranded` | wrapper/preload.c:96-102 | once `batch_start` has left the ring, 4N+6 worker steps, however interleaved, execute every call submitted before, each in its place |
| `RingLiveness.FullIsFull` | wrapper/preload.c:129 | under the invariant a true spin test means N-1 outstanding, and conversely for the intended test |
| `RingLiveness.SpinIsReleased` | wrapper/preload.c:129-130 | with the worker awake, 4N+6 worker steps publish a larger head and end the spin |
| `RingLiveness.DoomedSpinNeverEnds` | wrapper/preload.c:129-130 | a spinning producer and a sleeping worker: no run changes the state |
| `RingLiveness.SpinEndsIffWorkerAwake` | wrapper/preload.c:129-130 | the spinning call gets in on some continuation if and only if the worker is not past an EMPTY re-check unwoken |
| `RingOverflow.LapOntoOldest` | wrapper/preload.c:129-137 | a producer past a full ring with head_entry 0 laps onto the first unexecuted entry, wherever the worker is on its way to it |
| `RingOverflow.RunsWhatIsThere` | module/lioo.c:246-327 | from any phase in which it is awake the worker then runs the slot as it now is |
| `RingOverflow.OverflowLosesACall` | wrapper/preload.c:129-137 | in every state with the invariant and every worker phase, the advance of the missed case has a continuation in which another call runs in the place of the first unexecuted one |
| `RingOverflow.SafeIffFits` | wrapper/preload.c:129-137 | in every state with the invariant, every fitting continuation of an advance stays in order if and only if the advance is not the missed case or the ring has one entry and runs nothing |
| `RingOverflow.EveryRingCanLoseACall` | wrapper/preload.c:124-138 | every ring of two or more entries reaches a lost call from registration under the test as written |
| `RingDeadlock.CanGetStuck` | module/lioo.c:255-269 | from registration, a run to a state that no run leaves, under the intended test or with two or more entries per table |
| `RingDeadlock.StuckIffItCanWait` | wrapper/preload.c:129-130 | a stuck state is reachable if and only if the ring makes the intended test or has two or more entries per table |
| `EscaRing.Ring.Register` | module/lioo.c:386-399 | registration in place leaves the initial state: all statuses EMPTY, cursors 0, NEED_WAKEUP only |
| `EscaRing.Ring.StoreField` | wrapper/ngx_tls.c:19-23 | one store is the machine's fill step and touches the slot at the tail only |
| `EscaRing.Ring.FillSlot` | wrapper/ngx_tls.c:19-23 | the stores of a wrapper leave the whole call in the slot at the tail, by steps of the machine, and nothing else changed |
| `EscaRing.Ring.UpdateIndex` | wrapper/preload.c:124-138 | one evaluation of the spin test and the advance: the machine's advance if the test is false, its spin otherwise |
| `EscaRing.Ring.MarkBusy` | wrapper/ngx_tls.c:30 | the BUSY store through the saved indices is the machine's mark step |
| `EscaRing.Ring.Submit` | wrapper/ngx.c:12-23 | a whole wrapper call: steps of the machine; if the test passed, the call appended, its slot BUSY and the tail past it, otherwise the call in the slot and unsent; nothing else changed |
| `EscaRing.Ring.Visit` | wrapper/preload.c:97-101 | the visit of one ring takes the machine's steps and leaves the worker neither asleep nor about to sleep |
| `EscaRing.Ring.WakeUp` | module/lioo.c:418-429 | the waiter is woken and dequeued exactly when START_WAKEUP is up |
| `EscaRing.BatchStart` | wrapper/preload.c:91-105 | every ring of the worker is visited and left awake, every other ring is unchanged |
| `RingRuns.VisitRun` | wrapper/preload.c:97-101 | the steps of a visit taken together: flag unseen, nothing changes; flag seen, waiter off the queue and runnable, START_WAKEUP down again |
| `EscaRing.Ring.WaitTurn` | module/lioo.c:246-276 | one turn of the waiting loop: found exactly when the head slot is BUSY, never asleep with a marked entry pending |
| `EscaRing.WaitRun` | module/lioo.c:246-276 | the turn's outcome is where the machine's steps lead |
| `EscaRing.Ring.SnapshotTail` | module/lioo.c:278-282 | the count computed is the machine's snapshot |
| `EscaRing.Ring.RunSlot` | module/lioo.c:285-288 | running a slot appends its dispatch |
| `EscaRing.Ring.ClearSlot` | module/lioo.c:291-307 | the slot just run is EMPTY, and the nested step of the local cursor is taken, as in the machine |
| `EscaRing.Ring.PublishHead` | module/lioo.c:326-327 | the head becomes the local cursor |
| `EscaRing.Ring.Pass` | module/lioo.c:278-327 | one pass executes exactly what was submitted by the snapshot, in order, leaves every slot of it EMPTY, and publishes the snapshotted tail as head |
| `TableLayout.ViewsAgreeIff` | wrapper/preload.c:65-77 | user and kernel address every entry alike if and only if there is one table or a table fills a page |
| `TableLayout.EntriesAreInTheirPage` | module/lioo.c:376-384 | the entries of a table follow one another from the start of its page and stay in it when a table fits a page |
| `TableLayout.EntriesDoNotOverlap` | module/lioo.c:376-384 | distinct entries of the kernel view never overlap when a table fits its page |
| `Regions.Drift` | wrapper/ngx_tls.c:14-15 | over a window whose bytes and one slack fit the pool, the last region lies beyond the first without a wrap, or before it after exactly one |
| `Regions.BoundedWindowApart` | wrapper/ngx_tls.c:14-30 | n consecutive requests of at most m bytes get disjoint regions when (n+1)m <= cap+1 |
| `Regions.TightFit` | wrapper/ngx_tls.c:14-15 | below that bound, fewer than n requests of m bytes leave no room for one more before the end |
| `BytePool.Pool.Copy` | wrapper/ngx_tls.c:14-17 | the copy loop stores the buffer, and nothing else, at the start the allocator chooses |
| `BytePool.LoadAfterStore` | wrapper/ngx_tls.c:17 | a copy reads back whole and disturbs no region apart from it |
| `SideData.ExecutesNext` | module/lioo.c:285-288 | the worker dispatches the image of the next call in program order |
| `SideData.MoveKeepsCoherent` | module/lioo.c:284-327 | ring steps keep "executed calls saw their data, pending ones still can" |
| `SideData.IssueKeepsCoherent` | wrapper/ngx_tls.c:17-30 | so does a new call, if its copy spares the data of the pending ones |
| `TlsWrite.CopySparesPending` | wrapper/ngx_tls.c:14-17 | the copy of a new buffer overlaps no region of a pending write |
| `TlsWrite.WritesSeeTheirBuffers` | wrapper/ngx_tls.c:14-30 | with (N+1)M <= pool+1, under every interleaving and over any number of wraps, the executed calls were, in order, the write number on the caller's descriptor of exactly the caller's buffer |
| `SharedPool.TwoRingsMixBuffers` | wrapper/ngx_tls.c:7-30 | with RATIO above 1, whatever the pool's size, a run from registration on which an executed write sees bytes of a later one |
| `SharedPool.SmallPoolMixesBuffers` | wrapper/ngx_tls.c:14-30 | with one ring and (N+1)M above pool+1, a run from registration on which an executed write sees bytes of a later one |
| `SharedPool.BuffersAreSafeIff` | wrapper/ngx_tls.c:1-34 | every run shows every executed write its caller's descriptor and buffer if and only if the thread has one ring and (N+1)M <= pool+1 |
| `SendmsgGather.Pools.PutNext` | wrapper/mcached.c:25-38 | one turn of the copy loop over byte pool and iovec pool |
| `SendmsgGather.Pools.CopyMessage` | wrapper/mcached.c:13-58 | the loop in place leaves the pools as the gather function says, returns the byte total, and names the header used |
| `SendmsgGather.PutAll` | wrapper/mcached.c:21-41 | all fragments end up in the pool beside the pending ones, which are untouched |
| `SendmsgGather.PutIovecs` | wrapper/mcached.c:30-35 | a run of iovecs that does not cross the last index is contiguous and touches no other iovec |
| `SendmsgGather.IntactReadsMessage` | wrapper/mcached.c:44-50 | an intact header read through its iovecs gives the concatenation of the caller's fragments |
| `SendmsgGather.GatherIsExact` | wrapper/mcached.c:13-50 | for every message that fits the pool, header to iovecs to bytes gives the caller's message if and only if its iovecs do not cross index 1024 |
| `SendmsgGather.TotalIsLength` | wrapper/mcached.c:64 | the count returned is the message's length |
| `SendmsgHeaders.GatherWritesOneHeader` | wrapper/mcached.c:44-58 | a message of any size writes one header, at the masked offset, and no other |
| `SendmsgHeaders.OverwriteHeader` | wrapper/mcached.c:14-58 | with N above 1024, a run from registration, each message with room for it, after which a pending call's header slot holds another message's header |
| `SendmsgHeaders.HeadersAreKeptIff` | wrapper/mcached.c:14-58 | no sequence of messages, of whatever size, makes a pending call lose its header, if and only if N <= 1024 |
| `SendmsgHeaders.MessagesAreSafeIff` | wrapper/mcached.c:13-61 | messages that find room reach the kernel as their callers passed them, descriptor, flags and bytes, on every run if and only if N <= 1024 |
| `SendmsgServer.GatherSpares` | wrapper/mcached.c:13-50 | a new message leaves header, iovecs and bytes of a pending one alone when their regions and slots are apart |
| `SendmsgServer.CheckedIsAffordable` | wrapper/mcached.c:21-41 | with N messages' bytes and one fragment in the byte pool and N messages' iovecs in theirs, every message that does not cross index 1024 finds room beside the pending ones |
| `SendmsgServer.CheckedMessagesAreSentWhole` | wrapper/mcached.c:13-61 | with pool sizes fixed that way and N <= 1024, on every run whose messages do not cross index 1024, the executed calls were, in order, sendmsg on the caller's descriptor with the caller's flags, and found exactly the caller's message and its flags |
| `SendfileOffsets.OtherSlot` | wrapper/lighty.c:52 | writing one private offset affects no other entry within a lap |
| `SendfileOffsets.OffsetsArePrivate` | wrapper/lighty.c:19-66 | the executed calls were, in order, sendfile with the caller's output and input descriptor, count, and the offset its variable had when it was issued, or shutdown with the caller's descriptor and direction |
| `SendfileOffsets.SharedOffsetTiles` | wrapper/lighty.c:52-61 | calls sharing an offset variable submit ranges that tile the interval from its first value to its last |
| `SendfileOffsets.TilesDoNotOverlap` | wrapper/lighty.c:61 | such ranges follow one another without gap or overlap |
| `Wrappers.Write` | wrapper/ngx_tls.c:1-34 | outside a batch nothing changes; inside, the buffer is in the pool, the call handed to the ring is a write on the caller's descriptor of exactly those bytes, and the count is returned |
| `Wrappers.Sendmsg` | wrapper/mcached.c:1-65 | outside a batch nothing changes; inside, the message is gathered, the call has the caller's descriptor, the message's header and the caller's flags, and the result is the message's length |
| `Wrappers.Sendfile` | wrapper/lighty.c:35-70 | outside a batch nothing changes; inside, the caller's offset is kept privately at the slot of the call, the variable moves on by the count, the call has output descriptor, input descriptor, private offset and count in this order, and the count is returned |
| `Routing.StaysInOwnRings` | wrapper/lighty.c:10 | with C's remainder, a wrapper uses a ring of its own worker if and only if the descriptor is not negative or is a multiple of RATIO |
| `Routing.RingIndexIs` | wrapper/lighty.c:10 | the ring selected is worker times RATIO plus the remainder that has the descriptor's sign, for every descriptor |
| `Routing.RatioIsFairShare` | wrapper/preload.c:149 | RATIO is the largest number of rings that all user workers can have of their own |
| `Routing.RingSetsAreDisjoint` | wrapper/preload.c:56-149 | ring sets of different user workers are disjoint and below the number of kernel workers |
| `Routing.SameRingIff` | wrapper/ngx.c:8-37 | any two descriptors share a ring if and only if they are congruent modulo RATIO and both or neither stay in the worker's own rings |
| `Routing.DescriptorOrder` | wrapper/lighty.c:10-43 | under every interleaving of RATIO workers, for every descriptor that stays in the worker's own rings, its executed calls are a prefix of its calls in program order |
| `RoutingOrder.CanOvertake` | wrapper/ngx.c:8-37 | with different rings there is a run on which the second call is executed and the first is not |
| `RoutingOrder.ReachedIsDone` | module/lioo.c:284-327 | what a worker has executed at a call's position among its ring's calls is that call |
| `RoutingOrder.OrderKeptIffSameRing` | wrapper/ngx.c:8-37 | for every program, an executed call of descriptor b means that every earlier call of descriptor a has been executed as itself, on every run, if and only if both select the same ring or the rings have one entry and run nothing |
| `EchoServer.EventLoop.constructor` | echo/io_uring_echo_server.c:99-115 | the loop starts in the machine's initial state: all buffers in the pool, one accept queued, nothing live |
| `EchoServer.EventLoop.HandleOne` | echo/io_uring_echo_server.c:131-167 | the handler takes the machine's step; it exits exactly on an empty pool or a failed provide, submits a new connection's receive before the next accept, and gives a buffer back before the next receive |
| `EchoServer.EventLoop.HandleAll` | echo/io_uring_echo_server.c:118-170 | one turn takes the machine's steps for all completions in order up to the first that exits, and for none after it |
| `EchoOwnership.AppendedOwns` | echo/io_uring_echo_server.c:132-167 | what a handler submits owns exactly what its completion owned, except that a closed descriptor is nobody's and the next accept is on the listening descriptor |
| `EchoOwnership.StepConserves` | echo/io_uring_echo_server.c:132-167 | every step of server or kernel on which the server does not exit, an empty pool included, keeps for each buffer, descriptor and the accept the number of owners it is due |
| `EchoOwnership.StepKeepsOwnership` | echo/io_uring_echo_server.c:132-225 | after every step the server has exited, or each buffer is in exactly one place, each live descriptor has exactly one request or completion, and there is exactly one accept, on the listening descriptor |
| `EchoOwnership.EveryRunKeepsOwnership` | echo/io_uring_echo_server.c:118-225 | so after every run, with no condition on the number of connections |
| `EchoSupply.PoolIsNotEmpty` | echo/io_uring_echo_server.c:132-135 | under the potential invariant no receive finds the pool empty |
| `EchoSupply.HandleKeepsPotential` | echo/io_uring_echo_server.c:136-167 | every handler keeps "handled connections plus queued provides minus queued receives" within the buffers, from every queue entry on |
| `EchoSupply.EveryRunIsSupplied` | echo/io_uring_echo_server.c:118-171 | with no more live connections than buffers, every run goes on and no receive finds the pool empty |
| `EchoOverload.OverloadEmptiesPool` | echo/io_uring_echo_server.c:132-135 | with room for one connection more than buffers, a run on which a receive finds the pool empty |
| `EchoOverload.NeverOutOfBuffersIff` | echo/io_uring_echo_server.c:15-18 | the ENOBUFS branch is unreachable if and only if no more connections can be live than there are buffers |
| `EchoIsolation.OneOwner` | echo/io_uring_echo_server.c:150-167 | what a request in flight owns, no other request or completion owns |
| `EchoIsolation.ReceiveKeepsIsolated` | echo/io_uring_echo_server.c:150-161 | received data goes into a buffer nothing on its way to being sent refers to |
| `EchoIsolation.SendKeepsIsolated` | echo/io_uring_echo_server.c:201-213 | what is sent is what the connection received last |
| `EchoIsolation.EverySendEchoes` | echo/io_uring_echo_server.c:150-218 | on every run, with no condition on the number of connections, the payload of each send is the payload of the receive just before it on the same connection, across closes and descriptor reuse |

## Left out

- EscaRing.Ring.UpdateIndex: evaluates the spin test once and reports it, since the loop ends only by another thread's step; the loop itself is in the machine, with its release and its deadlock.
- EscaRing.Ring.Submit: a call whose first test is true is reported as spinning, for the same reason.
- SendmsgServer.CheckedMessagesAreSentWhole: one ring per thread, and headers addressed by their index in the header pool.
- SendmsgHeaders.MessagesAreSafeIff: one ring per thread; runs with a message that does not find room beside the pending ones are not covered.
- SendfileOffsets.OffsetsArePrivate: one row of the offset array, addressed by index.
- Routing.DescriptorOrder: calls whose descriptor leaves the worker's own rings (the exact set is in `Routing.StaysInOwnRings`) reach a ring that another thread fills, or none, and are not issued here.
- `batch_flush` and `sys_esca_wait`: the wait is on a constant condition and returns at once, so there is no completion to state; the `done` scan and its wake-ups serve only that.
- The worker's idle timer: whether it has run out is a choice of the machine and a parameter of `EscaRing.Ring.WaitTurn`.
- `msg_name` and `msg_control` of a message, which the wrapper replaces by NULL.
- System-call results: wrappers return assumed success and never read them; `sysret` and `pid` are not modelled.
- Weak memory, torn cursor pairs, and lost updates between the two sides' read-modify-writes of the flag word.
- Signals, worker exit, CPU affinity, page attributes, system-call table hooking, symbol relocation, reading of the configuration file.
- `wrapper/redis.c`, `wrapper/echo.c`, `wrapper/ngx_ktls.c` and the `shutdown` and `close` bodies beyond their routing and ring use: the same submission with no further property.
- The `writev` wrapper, which is compiled out, and the epoll echo server and load generator.
- Short sends, accept address storage and liburing queue limits in the echo server.
