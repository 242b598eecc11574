# Verification of the LibrettOS network core

This project models, in Dafny 4.11, the parts of the LibrettOS network stack on which everything
else rests: the lock-free ring and queue, the locks and sleeping built on them, the packet
hand-over between two Xen domains, the page and byte allocators, the JSON tokenizer and the
formatted output. Each is proved against what it is for, over every run or every input.

`dafny verify dfyconfig.toml` checks the whole project.

## How it is laid out

| file | models |
|---|---|
| `Common.dfy`, `Bits.dfy` | shared types; bit operations on naturals, used by the ring, the bitmap and the allocators |
| `RingSteps.dfy`, `RingCalls.dfy`, `RingMap.dfy`, `RingWord.dfy`, `Ring.dfy` | `include/bmk-core/lfring.h`: all interleavings; what a whole call does in them; the slot map; a slot as one word; one call at a time |
| `QueueSteps.dfy`, `QueueSystem.dfy`, `QueueCalls.dfy`, `SignedQueue.dfy` | `include/bmk-core/lfqueue.h` and the block queues of `sched.c`: the steps on one queue, node by node; any number of queues that share threads and nodes; what whole calls do; what each queue implements |
| `Mutex.dfy`, `RwLock.dfy`, `CondVar.dfy` | `lib/libbmk_rumpuser/rumpuser_synch.c` |
| `Handshake.dfy` | receiver, senders and events of `platform/hw/xen/backend.c` and `frontend.c` |
| `Join.dfy`, `Park.dfy`, `Isr.dfy` | thread join, untimed parking, interrupt delivery |
| `Buddy.dfy`, `Bitmap.dfy`, `Pgalloc.dfy` | `lib/libbmk_core/pgalloc.c` |
| `Memalloc.dfy` | `lib/libbmk_core/memalloc.c`, on top of `Pgalloc` |
| `Jsmn.dfy`, `JsonTree.dfy`, `JsonText.dfy`, `JsmnParser.dfy` | `lib/libbmk_core/jsmn.c`: what the two passes compute; what the tokens say of a document; documents written out by characters; the parser in place |
| `Strtoul.dfy`, `Printf.dfy`, `Fields.dfy`, `Format.dfy`, `Kprintf.dfy` | `lib/libbmk_core/strtoul.c` and `subr_prf.c`: numbers read; conversions; what their fields show and how they are read back; format strings; the output loop |

The concurrent parts are step systems: a state holds the shared words and one program counter per
thread, a step is one shared access and the local computation after it, and a run is any sequence
of steps of any number of threads. Each has an invariant that every step keeps (`NextKeeps`), and
its main results are about every state of every run. They are layered as in the source: the queue
refines a signed queue, the mutex uses the signed queue, and the reader-writer lock and the
condition variable use the mutex as the plain lock it is shown to be. The sequential parts are
classes and methods that update their fields and arrays in place, proved against functions and
predicates about which the lemmas speak.

Where the code does not do what it seems meant to, the model follows the code and lemmas say exactly
when it does:

- A reader's tryenter that finds no readers counts its reader twice, after which the lock is never
  free for a writer again: `RwLock.TryenterExitStaysTaken` is a run that shows it, and with everyone
  out the lock is free if and only if no tryenter has taken that branch (`RwLock.FreeWhenIdle`).
- `isr` given 0 wakes the interrupt thread again: `Isr.TwiceWoken` is a run that shows it, and the
  thread is woken once per sleep in all runs if and only if 0 is not among the arguments
  (`Isr.WokenOnceIff`). Its top bit can get lost: `Isr.LosingRun` is a run that shows it, and every bit
  of an argument arrives in all runs if and only if the top bit is not among them (`Isr.ArrivesIff`).
- `bmk_memalloc` adds the bytes asked for and its header in 64 bits: the block has room for both if and
  only if the sum fits (`Memalloc.RoomIff`).
- The comment at `lib/librumprun_base/_lwp.c:112-113` says that the park bit is already unset when the
  unpark bit is set, but the exclusive or then sets it.

## Model

| member | source | states |
|---|---|---|
| RingSteps.NextKeeps | include/bmk-core/lfring.h:135-233 | every step of any enqueuer, dequeuer or catch-up keeps the ring's invariant; head, tail and slot cycles do not go back |
| RingSteps.InitInv | include/bmk-core/lfring.h:89-133 | the empty, full and partly filled rings satisfy the invariant |
| RingSteps.RunForward | include/bmk-core/lfring.h:168-180 | over any run, catch-up included, head, tail and every slot's cycle never decrease and what was stored or returned stays so |
| RingSteps.DeliveredByTicket | include/bmk-core/lfring.h:196-205 | an index returned under head ticket H is the one stored under tail ticket H, by the thread that drew H, from a slot not reused, and H is returned once |
| RingSteps.ReturnedOnlyByHolder | include/bmk-core/lfring.h:196-205 | only the thread that holds ticket H returns its index |
| RingSteps.NothingStranded | include/bmk-core/lfring.h:199-217 | once a dequeuer has given ticket T up no enqueuer ever succeeds with T; a stored index not yet returned is still in its slot for a dequeuer that will draw, or holds, its ticket |
| RingSteps.FifoByTicket | include/bmk-core/lfring.h:135-233 | if a later ticket's index has been returned, each earlier one has been returned too or its ticket is in the hands of the one thread that drew it |
| RingSteps.HeldTicketUnused | include/bmk-core/lfring.h:146-160 | a tail ticket in an enqueuer's hands has been drawn and not been used, despite catch-up |
| RingSteps.TailTicketsUnique | include/bmk-core/lfring.h:146-160 | no two enqueuers hold the same tail ticket |
| RingCalls.EnqueueStores | include/bmk-core/lfring.h:135-166 | over any run, a call of enqueue that has left its loop stored exactly once, under one ticket, the index it was called with; right after that step the slot of the ticket holds it under the ticket's cycle; while in the loop it has stored nothing |
| RingCalls.EnqueueAnswers | include/bmk-core/lfring.h:135-166 | an enqueue that returns answers true |
| RingCalls.DequeueReturns | include/bmk-core/lfring.h:182-233 | a call of dequeue that has returned an index took exactly one ticket's index out, one that its thread drew, under which that index was stored and which nobody had returned; one that answers EMPTY returned nothing and was not called with nonempty |
| RingMap.RawMapRotates | include/bmk-core/lfring.h:56-60 | the shifts and masks of the slot map rotate the ticket's bits |
| RingMap.MapPermutes | include/bmk-core/lfring.h:56-71 | for every order at least LFRING_MIN the slot map is a permutation, with its inverse |
| RingMap.MapCongruent | include/bmk-core/lfring.h:56-71 | tickets share a slot exactly if they are congruent modulo the number of slots |
| RingMap.RingGeoFresh | include/bmk-core/lfring.h:68-71 | every ring of the source is an instance of what the step system is proved for |
| RingWord.WordInjective | include/bmk-core/lfring.h:150-157 | slot words are equal exactly if cycle, safe bit and index are |
| RingWord.CycleOf | include/bmk-core/lfring.h:150-150 | or-ing a slot word with 2n - 1 leaves its cycle |
| RingWord.CycleOfTicket | include/bmk-core/lfring.h:146-146 | the word built from a ticket is its cycle, safe, with the empty pattern |
| RingWord.CycleCompare | include/bmk-core/lfring.h:53-53 | comparing such words compares cycles |
| RingWord.EmptyTests | include/bmk-core/lfring.h:151-154 | the equality tests on words say whether the slot is empty and whether it is safe |
| RingWord.Stored | include/bmk-core/lfring.h:156-157 | the word an enqueuer stores is its index under its ticket's cycle, safe |
| RingWord.Emptied | include/bmk-core/lfring.h:201-204 | the dequeuer's or empties the slot and keeps its cycle and safe bit; its mask yields the index |
| RingWord.Unsafe | include/bmk-core/lfring.h:207-210 | the dequeuer's and-not clears the safe bit, and changes nothing exactly if it was clear |
| RingWord.Advanced | include/bmk-core/lfring.h:211-213 | the dequeuer's exclusive or moves an empty slot to its ticket's cycle with the safe bit kept |
| RingWord.EnqueuerDecides | include/bmk-core/lfring.h:146-157 | the enqueuer's tests on the word it has read decide exactly as the step system does on its fields |
| RingWord.DequeuerDecides | include/bmk-core/lfring.h:199-217 | so do the dequeuer's, and the word it tries to store is the step system's |
| RingWord.InitialWords | include/bmk-core/lfring.h:89-133 | the words stored by the initializers have the fields that the step system starts with |
| Ring.Ring.Empty | include/bmk-core/lfring.h:89-100 | a fresh ring holds nothing |
| Ring.Ring.Full | include/bmk-core/lfring.h:102-115 | a full ring holds the indices put in, in ticket order |
| Ring.FullHoldsEachOnce | include/bmk-core/lfring.h:107-108 | those are each of the 2^order indices exactly once |
| Ring.NewFull | include/bmk-core/lfring.h:102-115 | hence a ring of the source, of any order, that is initialised full holds a permutation of its indices |
| Ring.Ring.Enqueue | include/bmk-core/lfring.h:135-166 | one call at a time, with fewer than 2^order live indices, an enqueue appends at its first ticket, whatever exchanges fail; it resets the threshold exactly if not called with nonempty |
| Ring.Ring.Dequeue | include/bmk-core/lfring.h:182-233 | one call at a time, a dequeue answers EMPTY exactly if the ring is empty, or the threshold is negative and it was not called with nonempty; else it removes the first; with the threshold exact, it answers EMPTY exactly if the ring is empty, and keeps it exact |
| Ring.Ring.Catchup | include/bmk-core/lfring.h:168-180 | catch-up brings tail up to head, whatever exchanges fail |
| Ring.RingPeriodic | include/bmk-core/lfring.h:68-71 | the rings of the source have the period that the sequential proof uses |
| SignedQueue.Balance | include/bmk-core/lfqueue.h:68-164 | in a signed queue threads leave in the order they came and sleeps minus wakes is sleepers minus stored wakeups, on one side only |
| QueueSteps.ActsKeep | include/bmk-core/lfqueue.h:68-164 | every step of an enqueuer or dequeuer on a queue keeps its nodes well formed, stamps included, and leaves what is in other queues alone |
| QueueSteps.ActRefines | include/bmk-core/lfqueue.h:90-99 | every step is one operation on the signed queue with the outcome it has there, or none: enqueue returns false exactly if it takes a stored wakeup |
| QueueSystem.ElsewhereOk | lib/libbmk_core/sched.c:866-878 | a step on one queue, seen from another in the same memory, keeps that one well formed and is no operation on it |
| QueueSystem.NextKeeps | include/bmk-core/lfqueue.h:68-164 | every step on any of the queues keeps the invariant of all of them and of all agents, those with outdated pointers to nodes now elsewhere included |
| QueueSystem.RunRefines | include/bmk-core/lfqueue.h:68-164 | in every run the nodes of each queue spell out the signed queue that the operations on it so far lead to |
| QueueSystem.RunBalance | include/bmk-core/lfqueue.h:123-164 | hence FIFO order and the signed balance on each queue over every run |
| QueueSystem.NodesDistinct | lib/libbmk_core/sched.c:866-878 | in every reachable state the live nodes of all queues, sentinels included, the block nodes of the threads awake and the nodes in wakers' hands are pairwise distinct |
| QueueSystem.SleepsOnce | lib/libbmk_core/sched.c:838-878 | a thread sleeps at one position of one queue at most |
| QueueSystem.WokenThread | lib/libbmk_core/sched.c:866-878 | a wakeup makes runnable the thread that was taken out, which slept until then and gets a node of its own |
| QueueCalls.OneEffect | include/bmk-core/lfqueue.h:68-164 | over any run, a call that has returned had exactly one effect on its queue, and that is its answer: an enqueue put its thread to sleep or took a stored wakeup, a dequeue took the first sleeper out or stored a wakeup |
| QueueCalls.CallBalance | include/bmk-core/lfqueue.h:123-164 | completed enqueues and dequeues, with those whose effect is done and that are about to return, balance to sleepers minus stored wakeups |
| QueueCalls.NoThreadLost | lib/libbmk_core/sched.c:838-878 | a thread that is not running is being put to sleep by an agent at work, is in a queue, or is in the hands of an agent that will make it runnable |
| Mutex.NextKeeps | lib/libbmk_rumpuser/rumpuser_synch.c:105-181 | every step keeps exactly one permit while the counter is positive, and the counter the number of holders and waiters |
| Mutex.MutualExclusion | lib/libbmk_rumpuser/rumpuser_synch.c:105-181 | at most one thread holds the mutex |
| Mutex.OnePermit | lib/libbmk_rumpuser/rumpuser_synch.c:175-181 | holders, threads on their way in or out, and stored wakeups are together one while the counter is positive and none while it is zero |
| Mutex.NoLostWakeup | lib/libbmk_rumpuser/rumpuser_synch.c:117-122 | while a thread waits, some thread has the permit or the stored wakeup waits for it, also when the release overtakes its enqueue |
| Mutex.StoredWakeupHasTaker | lib/libbmk_core/sched.c:838-846 | a stored wakeup is one, and a thread on its way to sleep will take it |
| Mutex.NoBarging | lib/libbmk_rumpuser/rumpuser_synch.c:145-173 | tryenter and the spinning entry get in only when nobody holds, waits for, or hands on the mutex |
| Mutex.TryFailsIff | lib/libbmk_rumpuser/rumpuser_synch.c:160-173 | a step of tryenter gives up if and only if some thread holds the mutex, waits for it or is on the way in or out; otherwise it goes on until it gets in |
| Mutex.ReleaseWakesOne | lib/libbmk_core/sched.c:866-878 | a release wakes the first sleeper, who was asleep, or stores the wakeup, and makes no second thread runnable |
| Mutex.PlainLock | lib/libbmk_rumpuser/rumpuser_synch.c:105-181 | seen from outside, a thread gets in only when the mutex is free |
| Mutex.PlainUnlock | lib/libbmk_rumpuser/rumpuser_synch.c:175-181 | and only the fetch_sub of the thread that has it frees it |
| RwLock.NextKeeps | lib/libbmk_rumpuser/rumpuser_synch.c:222-334 | every step of enter, tryenter (which may fail while a mutex is being handed on), exit, downgrade and tryupgrade keeps the lock's invariant |
| RwLock.WriterExcludes | lib/libbmk_rumpuser/rumpuser_synch.c:222-334 | over any run, no reader and no other writer is in together with a writer |
| RwLock.ExitSeesItsKind | lib/libbmk_rumpuser/rumpuser_synch.c:284-292 | exit sees the type WRITER exactly when a writer calls it |
| RwLock.ReleasedWhenHeld | lib/libbmk_rumpuser/rumpuser_synch.c:284-292 | the access mutex is released only while held for the thread or group that releases it, by whichever reader leaves last |
| RwLock.FreeWhenIdle | lib/libbmk_rumpuser/rumpuser_synch.c:245-292 | with everyone out, the lock is free and its count zero if and only if no reader's tryenter has ever found no readers and taken the access mutex |
| RwLock.SecondCount | lib/libbmk_rumpuser/rumpuser_synch.c:263-275 | that branch leads only to the second count, nothing else does, and the second count stays |
| RwLock.MarkedIffTook | lib/libbmk_rumpuser/rumpuser_synch.c:263-275 | over any run, a reader is counted twice or about to be if and only if the branch has been taken |
| RwLock.NoWriterAfter | lib/libbmk_rumpuser/rumpuser_synch.c:263-275 | once it has been taken, the access mutex is not free and no writer is in at any later point of the run |
| RwLock.TryenterExitStaysTaken | lib/libbmk_rumpuser/rumpuser_synch.c:263-292 | the shortest run that shows it: one tryenter, one exit, and the access mutex stays taken with nobody in |
| RwLock.UpgradesIff | lib/libbmk_rumpuser/rumpuser_synch.c:325-334 | over any run, tryupgrade succeeds if and only if its caller is the only reader and no reader has been counted twice; otherwise the caller stays a reader |
| CondVar.NextKeeps | lib/libbmk_rumpuser/rumpuser_synch.c:400-512 | every step of wait, signal and broadcast keeps the condition variable's invariant |
| CondVar.WokenWhenAsleep | lib/libbmk_rumpuser/rumpuser_synch.c:480-512 | signal and broadcast wake only threads that are off the processor and not on the run queue |
| CondVar.NoneLost | lib/libbmk_rumpuser/rumpuser_synch.c:400-423 | a thread asleep is on the list, being woken, or on the run queue, and on one of them only |
| CondVar.ReturnsOnWakeup | lib/libbmk_rumpuser/rumpuser_synch.c:400-423 | a wait returns only after a wakeup addressed to it: since the thread went on the list it has been off the processor and woken exactly once |
| CondVar.WokenInOrder | lib/libbmk_rumpuser/rumpuser_synch.c:480-512 | over any run, those woken, the one in the waker's hand and those on the list are, in this order, all that ever went on the list |
| CondVar.BroadcastWakesAll | lib/libbmk_rumpuser/rumpuser_synch.c:497-512 | when a broadcast ends, everyone who ever waited has been woken |
| CondVar.BroadcastEmpties | lib/libbmk_rumpuser/rumpuser_synch.c:497-512 | a broadcast ends only with the list empty, and nobody is added meanwhile |
| CondVar.SignalWakesFirst | lib/libbmk_rumpuser/rumpuser_synch.c:480-495 | a signal that has returned has woken the thread that was first on the list when it was called, and no other; nobody only if the list was empty |
| Handshake.NextKeeps | platform/hw/xen/backend.c:281-372 | every step of the receiver, any sender, the event or its handler keeps the invariants of flag and buffers |
| Handshake.FreshStart | platform/hw/xen/frontend.c:162-164 | rings as first set up, free ring full, are a possible start |
| Handshake.NeverWokenWhileRunnable | platform/hw/xen/backend.c:93-98 | the receiver is on the run queue at most once and only while blocked; neither handler nor callback wakes it otherwise |
| Handshake.AsleepMeansEmpty | platform/hw/xen/backend.c:325-337 | a receiver asleep, with no event under way and no sender between enqueue and check, has an empty active ring |
| Handshake.HandlerWakes | platform/hw/xen/frontend.c:99-104 | whenever a handler runs its exchange the receiver is awake, waking itself, or woken by it, once |
| Handshake.OnePlace | platform/hw/xen/backend.c:310-323 | every buffer index is in exactly one of free ring, one sender's hands, active ring, receiver's hands |
| Handshake.WithinCapacity | platform/hw/xen/frontend.c:162-163 | the rings never hold more than the number of buffers, together |
| Handshake.NoSharedBuffer | platform/hw/xen/frontend.c:248-256 | no buffer is written while it is read or by two senders |
| Handshake.DeliveredInOrder | platform/hw/xen/frontend.c:201-213 | the packets handed on are, in order and unchanged, the first of those sent; the others are on the active ring or in the receiver's hands |
| Handshake.SendsOne | platform/hw/xen/frontend.c:233-264 | a send that took a buffer and has returned has put exactly one packet on the active ring, the one copied into its buffer |
| Handshake.PutIsDelivered | platform/hw/xen/backend.c:281-323 | and a packet put as the n-th is the n-th handed on, unchanged |
| Join.NextKeeps | lib/libbmk_core/sched.c:154-191 | every step of join, exit and reaping keeps the meeting of the two threads |
| Join.WokenOnce | lib/libbmk_core/sched.c:154-191 | joiner and exiting thread are each put on the run queue at most once per sleep, and only while blocked |
| Join.NotLeftAsleep | lib/libbmk_core/sched.c:168-191 | a thread blocked on a word that has been posted is on the run queue |
| Join.ReapedAfterJoin | lib/libbmk_core/sched.c:568-597 | join goes on only after the thread's exit, and the thread is not reaped before its joiner's final post |
| Park.NextKeeps | lib/librumprun_base/_lwp.c:272-317 | every step of park, unpark and wakeup keeps the value of the parking word |
| Park.WokenOnce | lib/librumprun_base/_lwp.c:104-117 | the thread is put on the run queue once per sleep and only while blocked |
| Park.UnparkArrives | lib/librumprun_base/_lwp.c:186-200 | an unpark before or during a park is not lost: until park returns the thread is not left asleep, and on its way to sleep it turns back |
| Park.ReturnsToUnpark | lib/librumprun_base/_lwp.c:280-306 | park returns only to an unpark issued since it last returned |
| Park.WakeupIff | lib/librumprun_base/_lwp.c:363-380 | wakeup succeeds if and only if the thread is off the processor and no unpark has come since it last returned; then it is the one that wakes it, and otherwise it changes nothing |
| Isr.NextKeeps | platform/hw/intr.c:66-140 | every step but isr(0) keeps the thread on the run queue, or about to be put there, once or not at all |
| Isr.WokenOnce | platform/hw/intr.c:185-191 | if isr is not given 0 the interrupt thread is put on the run queue once per sleep and only while blocked |
| Isr.TwiceWoken | platform/hw/intr.c:185-191 | a run in which isr(0) wakes it twice |
| Isr.WokenOnceIff | platform/hw/intr.c:185-191 | over all runs with arguments from a set, it is woken once per sleep if and only if 0 is not in the set |
| Isr.BitArrives | platform/hw/intr.c:108-136 | in every run, every bit but the top one that is given to isr is in the word or has reached an isrcopy |
| Isr.OnlyPosted | platform/hw/intr.c:108-136 | and every bit in the word, in an isrcopy or in the total has been given to isr before |
| Isr.WaitingBitKeepsAwake | platform/hw/intr.c:66-74 | in every run, while a bit waits the thread is not left asleep and does not go to sleep |
| Isr.TopBitArrives | platform/hw/intr.c:63-74 | the top bit given while the thread wakes itself, is blocked or has not taken its bits yet reaches its next isrcopy |
| Isr.TopBitIsLost | platform/hw/intr.c:63-74 | given at any other time it is lost: the call does what it would do without it |
| Isr.ArrivesIff | platform/hw/intr.c:63-140 | all bits of an argument arrive in all runs if and only if the top bit is not one of them |
| Buddy.ChunksDisjoint | lib/libbmk_core/pgalloc.c:464-494 | maximal free blocks that share a page are the same |
| Buddy.SplitChunks | lib/libbmk_core/pgalloc.c:409-416 | taking the first pages of a maximal free block leaves as maximal free blocks the others and those of the rest |
| Buddy.BuddyHeads | lib/libbmk_core/pgalloc.c:466-471 | the address of a buddy that is free heads a maximal free block of level at most the current order |
| Buddy.BuddyWhole | lib/libbmk_core/pgalloc.c:468-471 | the buddies' parent is free as a whole exactly if the buddy is a maximal free block of that order |
| Buddy.MergeChunks | lib/libbmk_core/pgalloc.c:463-496 | when coalescing stops, the maximal free blocks are the grown block and those outside it |
| Buddy.LevelBound | lib/libbmk_core/pgalloc.c:206-207 | no block of free pages reaches FREELIST_LEVELS |
| Buddy.CutIsChunk | lib/libbmk_core/pgalloc.c:288-299 | the block that carverange cuts off is a maximal block of the range |
| Buddy.CutGoesOn | lib/libbmk_core/pgalloc.c:288-303 | and so is every later one |
| Bitmap.MapAlloc | lib/libbmk_core/pgalloc.c:148-161 | for every start and count the word-wise update sets the bits of those pages, and no others |
| Bitmap.MapFree | lib/libbmk_core/pgalloc.c:163-176 | likewise for clearing |
| Bitmap.SetByPage | lib/libbmk_core/pgalloc.c:140-161 | word by word is page by page |
| Bitmap.ClearByPage | lib/libbmk_core/pgalloc.c:140-176 | word by word is page by page |
| Pgalloc.BitmapReaches | lib/libbmk_core/pgalloc.c:336-341 | for every memory size the highest word touched lies inside the bitmap reserved |
| Pgalloc.Allocator.constructor | lib/libbmk_core/pgalloc.c:313-355 | after loading, all managed pages are free and carved into maximal blocks |
| Pgalloc.Allocator.FreechunkLink | lib/libbmk_core/pgalloc.c:209-218 | the chunks listed, each once, are those listed before and the new one, at the head of its list and with a true header; no other header changes |
| Pgalloc.Allocator.Carverange | lib/libbmk_core/pgalloc.c:282-308 | exactly the maximal blocks of the range are added to the lists, with their headers |
| Pgalloc.Allocator.Satisfies | lib/libbmk_core/pgalloc.c:357-371 | an aligned chunk of the level, or none is there |
| Pgalloc.Allocator.PgallocAlign | lib/libbmk_core/pgalloc.c:379-437 | an allocation is a free, naturally aligned block with the alignment asked for; lists, bitmap, partition and usedkb stay exact; it fails only if no such block is free |
| Pgalloc.Allocator.ChunkLevel | lib/libbmk_core/pgalloc.c:190-196 | for a listed chunk the assertion on its magic number holds, and the level read is that of the one list the chunk is on |
| Pgalloc.Allocator.Mergeable | lib/libbmk_core/pgalloc.c:468-471 | the buddy test holds exactly if the buddy is a maximal free block of the order, and reads only true headers |
| Pgalloc.Allocator.Coalesce | lib/libbmk_core/pgalloc.c:463-494 | coalescing ends at the maximal free block, below FREELIST_LEVELS |
| Pgalloc.Allocator.Pgfree | lib/libbmk_core/pgalloc.c:439-498 | a free gives exactly the block back; lists, bitmap, partition and usedkb stay exact |
| Pgalloc.Allocator.UserWrites | lib/libbmk_core/pgalloc.c:181-197 | whatever users write to their pages, true headers stay intact |
| Pgalloc.ListsDetermined | lib/libbmk_core/pgalloc.c:379-498 | the free lists hold the same chunks whenever the same pages are free |
| Pgalloc.FreedAll | lib/libbmk_core/pgalloc.c:282-498 | freeing everything restores exactly the chunks first carved |
| Memalloc.BucketIsLeast | lib/libbmk_core/memalloc.c:183-191 | the bucket chosen is the least that holds the bytes |
| Memalloc.Layout | lib/libbmk_core/memalloc.c:172-204 | in a naturally aligned block of that bucket pointer, header and bytes lie inside the block and the pointer is aligned, also above the page size |
| Memalloc.RoomIff | lib/libbmk_core/memalloc.c:175-191 | the bucket chosen has room for header and bytes if and only if their sum fits 64 bits |
| Memalloc.BlocksApart | lib/libbmk_core/memalloc.c:95-122 | blocks that share a byte are the same block |
| Memalloc.AllocsApart | lib/libbmk_core/memalloc.c:161-217 | no two outstanding allocations share a byte, headers included |
| Memalloc.Malloc.CutPage | lib/libbmk_core/memalloc.c:114-120 | all blocks of a new page but the first go on the bucket's list |
| Memalloc.Malloc.Morecore | lib/libbmk_core/memalloc.c:95-122 | a page is cut into the blocks of the bucket, the first of them returned; none exactly if the page allocator has no block for it |
| Memalloc.Malloc.Bucketalloc | lib/libbmk_core/memalloc.c:135-159 | a block of the bucket that was free is now busy and counted; none exactly if the bucket lists no block and the page allocator has none for it |
| Memalloc.Malloc.Memalloc | lib/libbmk_core/memalloc.c:161-217 | success gives an aligned pointer in a block of its own; NULL leaves the allocations as they were, and is answered exactly if the alignment is neither 0 nor a power of two, or the bucket lists no block and no pages are free for it; an assertion fails exactly for alignments above 2^31 and sums above 2^63 |
| Memalloc.Malloc.Recovers | lib/libbmk_core/memalloc.c:254-273 | the header before an outstanding pointer leads back to exactly its block and bucket |
| Memalloc.Malloc.Memfree | lib/libbmk_core/memalloc.c:245-297 | free gives exactly that block back, to its list or to the page allocator; NULL and pointers without a header change nothing |
| Memalloc.Malloc.Realloc | lib/libbmk_core/memalloc.c:309-341 | the caller's bytes are kept, in place exactly if the block has room, else in a new block that they fit, or NULL exactly if there is none; no other allocation changes |
| Jsmn.CountThenFill | lib/libbmk_core/jsmn.c:174-321 | filling with room for what was counted never runs out, and fills exactly that |
| Jsmn.FillMatches | lib/libbmk_core/jsmn.c:205-249 | the unclosed entries of the token array act as a stack: filling succeeds exactly if a stack of brackets outside strings does |
| Jsmn.FillsIff | lib/libbmk_core/jsmn.c:174-321 | with num tokens, filling succeeds exactly if the brackets match and the count is at most num |
| Jsmn.FillNests | lib/libbmk_core/jsmn.c:187-249 | token intervals are in order and any two are disjoint or nested |
| Jsmn.CountedTextFills | lib/libbmk_core/jsmn.c:174-321 | the four together for a text that was counted |
| JsmnParser.Parser.ParsePrimitive | lib/libbmk_core/jsmn.c:58-102 | a primitive up to its end, or the error |
| JsmnParser.Parser.ParseString | lib/libbmk_core/jsmn.c:107-169 | a string up to its closing quote, escapes checked, or the error |
| JsmnParser.Parser.CloseBracket | lib/libbmk_core/jsmn.c:229-248 | the last open token is closed if it is of the right kind, and the one open around it becomes the parent |
| JsmnParser.Parser.CommaParent | lib/libbmk_core/jsmn.c:263-281 | a comma leads from a key back to the innermost open bracket; what stands before the array, which is read outside any container, makes no difference |
| JsmnParser.Parser.Parse | lib/libbmk_core/jsmn.c:174-321 | both passes compute what the counting and filling functions say; kinds and sizes of the tokens are what the tree grown item by item says |
| JsonTree.ValueGrows | lib/libbmk_core/jsmn.c:187-304 | reading a JSON value anywhere adds its nodes in preorder, each with the number of its children, and one child to the current parent |
| JsonTree.DocumentFills | lib/libbmk_core/jsmn.c:174-321 | for every text that is a JSON document and room for its nodes, filling succeeds and the tokens are its nodes: an array counts its elements, an object its keys, a key its value |
| JsonText.StringLaw | lib/libbmk_core/jsmn.c:107-169 | after any characters and escapes of section 7 of RFC 8259, a quote closes the string, a bad escape or hexadecimal digit is JSMN_ERROR_INVAL, and the end of the text is JSMN_ERROR_PART |
| JsonText.StringVerdict | lib/libbmk_core/jsmn.c:107-169 | and from every place in every text it comes to one of the three |
| JsonText.StringRefused | lib/libbmk_core/jsmn.c:107-169 | a refused string stops both passes with its error |
| JsonText.BareLaw | lib/libbmk_core/jsmn.c:58-102 | a run of printable characters other than separators and closing brackets is a primitive up to a blank, a separator, a closing bracket or the end; any other character is an error |
| JsonText.BareRefused | lib/libbmk_core/jsmn.c:72-86 | which stops both passes |
| JsonText.TextReads | lib/libbmk_core/jsmn.c:174-321 | every document written out by characters, with blanks anywhere between its parts, is read as itself, and its tokens cut out, in preorder, exactly the characters of its strings and primitives and the text of its arrays and objects from bracket to bracket |
| JsonText.TextTree | lib/libbmk_core/jsmn.c:187-304 | and the tokens' kinds and sizes are those of the document's tree |
| Strtoul.Strtoul | lib/libbmk_core/strtoul.c:58-131 | the value of the longest run of digits after space, sign and prefix, the largest value if it does not fit, negated in 64 bits after a minus; and where it ends |
| Strtoul.Cutoff | lib/libbmk_core/strtoul.c:100-123 | the cutoff test is exact |
| Strtoul.DigitsValue | lib/libbmk_core/subr_prf.c:525-551 | the digits written stand for the number |
| Strtoul.FitsBuffer | lib/libbmk_core/subr_prf.c:58-58 | every 64-bit number fits the buffer in each base, octal with its leading zero |
| Strtoul.RoundTrip | lib/libbmk_core/strtoul.c:58-131 | every 64-bit number is read back from its decimal, octal and hexadecimal digits |
| Strtoul.RoundTripOpen | lib/libbmk_core/strtoul.c:88-95 | and, with the base left open, from decimal and the alternate forms |
| Printf.WriteDigits | lib/libbmk_core/subr_prf.c:518-551 | the digit loops leave the digits at the end of the buffer and do not run over its start |
| Printf.WriteNumeral | lib/libbmk_core/subr_prf.c:518-559 | with the leading zero of alternate octal |
| Format.WrittenScans | lib/libbmk_core/subr_prf.c:308-500 | every sequence of literal characters and conversion specifications, however written (sizes h to z or capital letters, width and precision in the format or as arguments, a negative width for the flag -), is what its format is scanned to with any arguments whose low bits carry its values |
| Format.PlusWins | lib/libbmk_core/subr_prf.c:326-355 | the flag + wins over the flag blank in either order |
| Kprintf.Turns | lib/libbmk_core/subr_prf.c:324-500 | flags, width and precision, from digits or arguments, and size of a conversion specification, up to its conversion |
| Kprintf.Sink.Emit | lib/libbmk_core/subr_prf.c:587-631 | padding, prefix, zeroes and characters come out as the field is defined, and the width added is its length |
| Kprintf.Sink.Kprintf | lib/libbmk_core/subr_prf.c:270-640 | the output is that of the pieces of the format, in order, and the answer is its length |
| Kprintf.Vsnprintf | lib/libbmk_core/subr_prf.c:187-203 | the answer is the untruncated length and the buffer holds the prefix that fits, with a NUL after it |
| Printf.PrintedReadsBack | lib/libbmk_core/subr_prf.c:510-559 | what is printed for a number is read back by strtoul |
| Fields.ReadsNumber | lib/libbmk_core/strtoul.c:58-131 | for every text made of white space, a sign, a prefix, digits and something else, strtoul answers the number in 64 bits, negated after a minus, the largest value if it does not fit, and where the digits end |
| Fields.FieldReadsBack | lib/libbmk_core/subr_prf.c:510-631 | every number field, whatever its flags, width and precision, is read back as its number, sign included |
| Fields.SignShown | lib/libbmk_core/subr_prf.c:416-424 | behind its blanks a signed field shows a minus exactly for a negative number, a plus or a blank exactly for another one with that flag |
| Fields.Padded | lib/libbmk_core/subr_prf.c:587-631 | a field is padded to its width and no further, all on the right with the flag -, else inside with zeroes or all on the left with blanks |
| Fields.NoBlanks | lib/libbmk_core/subr_prf.c:594-631 | a number field has no blank but its padding and that of the flag ' ', and none of padding with the flag 0 in effect |
| Fields.DigitsShown | lib/libbmk_core/subr_prf.c:510-619 | as many digits as the precision asks for, or as the number needs |
| Fields.TextShown | lib/libbmk_core/subr_prf.c:463-483 | a string field shows the string cut at the precision |
| Fields.HexShown | lib/libbmk_core/subr_prf.c:492-548 | hexadecimal digits are of the case asked for, with 0x or 0X exactly in the alternate form of a number other than zero |

## Left out

- Weak memory ordering: all shared accesses are sequentially consistent.
- Tickets, stamps and counters that wrap: they are unbounded here, as are slot words.
- RingSteps.NothingStranded: says nothing of when EMPTY may be answered under concurrency (the threshold argument); the sequential ring has that exactly.
- Ring.Ring.Enqueue: one call at a time; all interleavings are in RingSteps.
- QueueSystem.RunRefines: only mark = true, the way block queues use the queue; the set of queues is fixed, and nodes taken at thread creation are not followed to thread exit.
- Mutex.PlainLock: the mutex flags and the scheduling of rump kernel contexts around a sleep are not modelled.
- Timed waits: rumpuser_cv_timedwait, timed _lwp_park and the time queue.
- Handshake.AsleepMeansEmpty: the rings are FIFO sequences of indices; start-up before the receiver's first store to readers, reconnection and termination are not modelled, and neither is a packet too large for its buffer (which halts).
- Isr.BitArrives: the loop that calls the handlers of each bit and the acknowledgement.
- Join.ReapedAfterJoin: one joiner and one joined thread; the reaper's freeing of stacks.
- Pgalloc.Allocator.constructor: memory whose rounded range is smaller than its own bitmap; calling it twice.
- Pgalloc.Allocator.Pgfree: only of a block that is outstanding with that order; list links are sequences, not pointers.
- Memalloc.Malloc.Memalloc: what happens when the sum of bytes and header does not fit 64 bits, beyond that the block is then too small (Memalloc.RoomIff); headers and free-list entries are kept beside the bytes, shown to lie in the block.
- Memalloc.Malloc.Memfree: a pointer freed twice or freed for another owner (which halts).
- Memalloc.Malloc.Realloc: blocks of 2^31 bytes and more, whose size the source computes by shifting an int, which C leaves undefined.
- bmk_memcalloc and the statistics and self-test of memalloc.c: easy members.
- JsmnParser.Parser.Parse: only a fresh parser.
- Kprintf.Sink.Kprintf: only for arguments that fit the format and widths and precisions that fit an int, without which C leaves the call undefined; the number stored by %n, and output to the console.
- ifconfig, config.c, rumprun.c, sysproxy.c, Xen event channels and grant tables, clocks: calls into code not shown, or easy members.
